/** tools/latency_hold.py: `Hold`, the ping sequence around a 0 ms latency timer, its cleanup,
    and the session that ends it. Every call to the adapter may fail or be interrupted, before
    or after it took effect, as `fate` decides. */
module HoldProtocol {
  import opened Basics
  import opened PingProtocol

  const WORKING_MS := 1

  datatype Phase = Start | Baseline | Drain | Zero | AfterSwitch | Control

  // The three readings of the timer: sysfs, the device's own, the low-latency flag.
  datatype Timer = Timer(sysfs: Option<int>, device: Option<int>, low: Option<bool>)

  predicate Holds(t: Timer, ms: int) {
    t == Timer(Some(ms), Some(ms), Some(false))
  }

  // What reached the port or the timer; a window is recorded when it ends.
  datatype Act = Flushed | Pinged(whole: bool) | Set(ms: int) | Observed(phase: Phase, got: Bytes)

  datatype Kind = Flush | Ping | SetTo(ms: int) | Window(phase: Phase)

  function KindOf(a: Act): Kind {
    match a
    case Flushed => Flush
    case Pinged(_) => Ping
    case Set(ms) => SetTo(ms)
    case Observed(p, _) => Window(p)
  }

  datatype Exit = Fine | OsError | Interrupted | Refused | Aborted

  datatype Mishap = Smooth | Fails | Interrupts

  // One call's fate: before and after its effect; what it would write, read back or read.
  datatype Fate = Fate(before: Mishap, after: Mishap, written: int, timer: Timer, chunk: Bytes, arrivals: nat)

  predicate CalmAt(n: nat, f: Fate) {
    f.before == Smooth && f.after == Smooth && f.written == 10 && f.arrivals == if n == 3 then 1 else 0
  }

  class Adapter {
    const fate: nat -> Fate
    var turn: nat
    var ignoring: bool
    ghost var acts: seq<Act>
    ghost var seen: seq<Timer>

    constructor (fate: nat -> Fate)
      ensures this.fate == fate && turn == 0 && acts == [] && seen == [] && !ignoring
    {
      this.fate, turn, ignoring, acts, seen := fate, 0, false, [], [];
    }

    function Met(m: Mishap): Exit
      reads this`ignoring
    {
      if m == Fails then OsError else if m == Interrupts && !ignoring then Interrupted else Fine
    }

    // A call meets what comes before it, and if that is nothing what comes after.
    ghost function Ends(f: Fate): Exit
      reads this`ignoring
    {
      if Met(f.before) == Fine then Met(f.after) else Met(f.before)
    }

    // No call fails or is interrupted, every ping is written whole, and only the window whose
    // reads are decided by call 3 gets anything, in one read.
    ghost predicate Calm() {
      forall n: nat :: CalmAt(n, fate(n))
    }

    method Next() returns (f: Fate, before: Exit, after: Exit)
      modifies this`turn
      ensures f == fate(old(turn)) && turn == old(turn) + 1 && before == Met(f.before) && after == Met(f.after)
    {
      f := fate(turn);
      turn := turn + 1;
      before, after := Met(f.before), Met(f.after);
    }

    method FlushInput() returns (exit: Exit)
      modifies this`turn, this`acts
      ensures Mishappen(exit, ignoring) && exit == Ends(fate(old(turn)))
      ensures acts == old(acts) + [Flushed] || (exit != Fine && acts == old(acts))
      ensures turn == old(turn) + 1 && (Calm() ==> exit == Fine)
    {
      var f, before, after := Next();
      if before != Fine { return before; }
      acts := acts + [Flushed];
      return after;
    }

    method Write(packet: Bytes) returns (exit: Exit, n: int)
      modifies this`turn, this`acts
      ensures Mishappen(exit, ignoring) && exit == Ends(fate(old(turn)))
      ensures acts == old(acts) + [Pinged(n == |packet|)] || (exit != Fine && acts == old(acts))
      ensures turn == old(turn) + 1 && (Calm() ==> exit == Fine && n == 10)
    {
      var f, before, after := Next();
      n := f.written;
      if before != Fine { return before, n; }
      acts := acts + [Pinged(n == |packet|)];
      return after, n;
    }

    // One read of the window; a window is any number of them.
    method ReadInput() returns (exit: Exit, chunk: Bytes)
      modifies this`turn
      ensures Mishappen(exit, ignoring) && exit == Ends(fate(old(turn)))
      ensures turn == old(turn) + 1 && chunk == fate(old(turn)).chunk && (Calm() ==> exit == Fine)
    {
      var f, before, after := Next();
      return if before != Fine then before else after, f.chunk;
    }

    method ReadsInWindow() returns (n: nat)
      modifies this`turn
      ensures turn == old(turn) + 1 && (Calm() ==> n == if old(turn) == 3 then 1 else 0)
    {
      var f, before, after := Next();
      return f.arrivals;
    }

    // A set that fails may have taken effect or not: it is recorded either way.
    method SetTimer(ms: int) returns (exit: Exit)
      modifies this`turn, this`acts
      ensures Mishappen(exit, ignoring) && exit == Ends(fate(old(turn)))
      ensures acts == old(acts) + [Set(ms)] || (exit == Interrupted && acts == old(acts))
      ensures turn == old(turn) + 1 && (Calm() ==> exit == Fine)
    {
      var f, before, after := Next();
      if before == Interrupted { return before; }
      acts := acts + [Set(ms)];
      return if before != Fine then before else after;
    }

    method ReadTimer() returns (exit: Exit, t: Timer)
      modifies this`turn, this`seen
      ensures Mishappen(exit, ignoring) && exit == Ends(fate(old(turn)))
      ensures seen == if exit == Fine then old(seen) + [t] else old(seen)
      ensures turn == old(turn) + 1 && t == fate(old(turn)).timer && (Calm() ==> exit == Fine)
    {
      var f, before, after := Next();
      t := f.timer;
      exit := if before != Fine then before else after;
      if exit == Fine { seen := seen + [t]; }
    }

    // A place where only a signal can arrive.
    method Pause() returns (interrupted: bool)
      modifies this`turn
      ensures interrupted ==> !ignoring
      ensures turn == old(turn) + 1 && (Calm() ==> !interrupted)
    {
      var f, before, after := Next();
      return before == Interrupted;
    }
  }

  predicate Mishappen(exit: Exit, ignoring: bool) {
    exit == Fine || exit == OsError || (exit == Interrupted && !ignoring)
  }

  const STEPS := 12

  // The acts of a whole sequence, in order.
  function Plan(k: nat): Kind
    requires k < STEPS
  {
    match k
    case 0 => Flush
    case 1 => Ping
    case 2 => Window(Baseline)
    case 3 => Window(Drain)
    case 4 => Flush
    case 5 => SetTo(0)
    case 6 => Ping
    case 7 => Window(Zero)
    case 8 => SetTo(WORKING_MS)
    case 9 => Window(AfterSwitch)
    case 10 => Ping
    case _ => Window(Control)
  }

  predicate Whole(a: Act) {
    a.Pinged? ==> a.whole
  }

  // The acts follow the plan from its start; only the last may be a ping not written whole.
  ghost predicate Along(acts: seq<Act>) {
    && |acts| <= STEPS
    && (forall k | 0 <= k < |acts| :: KindOf(acts[k]) == Plan(k))
    && (forall k | 0 <= k < |acts| - 1 :: Whole(acts[k]))
  }

  // Exactly the first n acts of the plan are done.
  ghost predicate Done(n: nat, acts: seq<Act>) {
    |acts| == n && Along(acts) && (n > 0 ==> Whole(acts[n - 1]))
  }

  // Each window's verdict is that of the bytes it got.
  ghost predicate Recorded(acts: seq<Act>, result: map<Phase, Verdict>, id: bv8) {
    forall k | 0 <= k < |acts| && acts[k].Observed? ::
      acts[k].phase in result && result[acts[k].phase] == Classify(acts[k].got, id)
  }

  // One more attempt, which may not have come about.
  lemma OneMore(n: nat, acts: seq<Act>, result: map<Phase, Verdict>, id: bv8, a: Act)
    requires Done(n, acts) && Recorded(acts, result, id) && n < STEPS && KindOf(a) == Plan(n) && !a.Observed?
    ensures Along(acts) && Along(acts + [a]) && Recorded(acts + [a], result, id)
    ensures Whole(a) ==> Done(n + 1, acts + [a])
  {
  }

  lemma OneMoreWindow(n: nat, acts: seq<Act>, result: map<Phase, Verdict>, id: bv8, phase: Phase, got: Bytes)
    requires Done(n, acts) && Recorded(acts, result, id) && n < STEPS && Plan(n) == Window(phase)
    ensures Done(n + 1, acts + [Observed(phase, got)])
    ensures Recorded(acts + [Observed(phase, got)], result[phase := Classify(got, id)], id)
  {
    hide Classify;
    forall k | 0 <= k < n && acts[k].Observed? ensures acts[k].phase != phase { assert KindOf(acts[k]) == Plan(k); }
  }

  // A whole sequence lies behind: every act done and whole, each verdict its window's, the
  // baseline answered, and the timer read back at the start, at 0 ms and again at 1 ms.
  ghost predicate FinishedIn(acts: seq<Act>, seen: seq<Timer>, result: map<Phase, Verdict>, id: bv8) {
    && |acts| >= STEPS && Done(STEPS, acts[..STEPS]) && Recorded(acts[..STEPS], result, id)
    && acts[2].Observed? && Classify(acts[2].got, id) == Reply
    && |seen| >= 3 && Holds(seen[0], 1) && Holds(seen[1], 0) && Holds(seen[2], 1)
  }

  lemma FinishedStays(acts: seq<Act>, seen: seq<Timer>, result: map<Phase, Verdict>, id: bv8, acts': seq<Act>, seen': seq<Timer>)
    requires FinishedIn(acts, seen, result, id) && acts <= acts' && seen <= seen'
    ensures FinishedIn(acts', seen', result, id)
  {
    hide Done, Recorded, Classify;
    assert acts'[..STEPS] == acts[..STEPS];
  }

  // How a cleanup says it left the timer.
  datatype Left = Verified | Restored | NotRestored

  // What the notes say happened: how the sequence ended, what its cleanup left, whether the
  // recorder was found ended or the session interrupted, and what a second cleanup left.
  datatype Report = Report(ended: Exit, cleanup: Option<Left>, recorderEnded: bool, interrupted: bool,
                           retry: Option<Left>)

  const BLANK := Report(Fine, None, false, false, None)

  // An answered sequence whose calls all succeed, as the readings numbered 0, 8 and 12 hold.
  ghost predicate Answered(fate: nat -> Fate, id: bv8) {
    && Classify(fate(4).chunk, id) == Reply
    && Holds(fate(0).timer, 1) && Holds(fate(8).timer, 0) && Holds(fate(12).timer, 1)
  }

  class Hold {
    const adapter: Adapter
    const id: bv8
    var result: map<Phase, Verdict>
    var owed: bool
    var cleanupOk: bool
    var report: Report

    // The acts so far follow the plan, and the verdicts their windows.
    ghost predicate Follows()
      reads this`result, adapter`acts
    {
      Along(adapter.acts) && Recorded(adapter.acts, result, id)
    }

    ghost predicate DoneTo(n: nat)
      reads this`result, adapter`acts
    {
      Done(n, adapter.acts) && Recorded(adapter.acts, result, id)
    }

    constructor (adapter: Adapter, id: bv8)
      ensures this.adapter == adapter && this.id == id && !owed && cleanupOk && result == map[] && report == BLANK
    {
      this.adapter, this.id, owed, cleanupOk, result, report := adapter, id, false, true, map[], BLANK;
    }

    static lemma PingIsTen(id: bv8)
      ensures |PingPacket(id)| == 10
    {
    }

    // A ping written whole, or the sequence aborts.
    method SendPing(ghost n: nat) returns (exit: Exit)
      requires DoneTo(n) && n < STEPS && Plan(n) == Ping
      modifies adapter`turn, adapter`acts
      ensures Follows() && (exit == Fine ==> DoneTo(n + 1)) && old(adapter.acts) <= adapter.acts
      ensures exit == Fine || exit == Aborted || (exit == Interrupted && !adapter.ignoring)
      ensures adapter.turn == old(adapter.turn) + 1 && (adapter.Calm() ==> exit == Fine)
    {
      hide Along, Done, Recorded, Adapter.Calm;
      PingIsTen(id);
      OneMore(n, adapter.acts, result, id, Pinged(true));
      OneMore(n, adapter.acts, result, id, Pinged(false));
      var packet := PingPacket(id);
      var written;
      exit, written := adapter.Write(packet);
      if exit == OsError { return Aborted; }
      if exit == Fine && written != |packet| { return Aborted; }
    }

    // What arrives until the window ends, and its classification.
    method Observe(phase: Phase, ghost n: nat) returns (exit: Exit)
      requires DoneTo(n) && n < STEPS && Plan(n) == Window(phase)
      modifies this`result, adapter`turn, adapter`acts
      ensures Mishappen(exit, adapter.ignoring) && Follows() && old(adapter.acts) <= adapter.acts
      ensures exit == Fine ==> DoneTo(n + 1)
      ensures adapter.Calm() ==> exit == Fine && adapter.turn == old(adapter.turn) + if old(adapter.turn) == 3 then 2 else 1
      ensures adapter.Calm() && old(adapter.turn) == 3 ==> result == old(result)[phase := Classify(adapter.fate(4).chunk, id)]
    {
      hide Classify, Along, Done, Recorded, Adapter.Calm;
      DoneAlong(n, adapter.acts);
      var count := adapter.ReadsInWindow();
      var got: Bytes := [];
      for i := 0 to count
        invariant adapter.acts == old(adapter.acts) && result == old(result)
        invariant adapter.turn == old(adapter.turn) + 1 + i
        invariant i == 0 ==> got == []
        invariant i == 1 ==> got == adapter.fate(old(adapter.turn) + 1).chunk
      {
        var chunk;
        exit, chunk := adapter.ReadInput();
        if exit != Fine { return; }
        got := got + chunk;
      }
      OneMoreWindow(n, adapter.acts, result, id, phase, got);
      adapter.acts := adapter.acts + [Observed(phase, got)];
      result := result[phase := Classify(got, id)];
      DoneAlong(n + 1, adapter.acts);
      return Fine;
    }

    method FlushInput(ghost n: nat) returns (exit: Exit)
      requires DoneTo(n) && n < STEPS && Plan(n) == Flush
      modifies adapter`turn, adapter`acts
      ensures Mishappen(exit, adapter.ignoring) && Follows() && (exit == Fine ==> DoneTo(n + 1))
      ensures old(adapter.acts) <= adapter.acts
      ensures adapter.turn == old(adapter.turn) + 1 && (adapter.Calm() ==> exit == Fine)
    {
      hide Along, Done, Recorded, Adapter.Calm;
      OneMore(n, adapter.acts, result, id, Flushed);
      exit := adapter.FlushInput();
    }

    // Sets the timer and reads it back; a failure to set is a value not held.
    method SetAndCheck(ms: int, ghost n: nat) returns (exit: Exit, held: bool)
      requires DoneTo(n) && n < STEPS && Plan(n) == SetTo(ms)
      modifies this`owed, adapter`turn, adapter`acts, adapter`seen
      ensures owed && Mishappen(exit, adapter.ignoring) && Follows() && (exit == Fine ==> DoneTo(n + 1))
      ensures old(adapter.acts) <= adapter.acts
      ensures exit == Fine && held ==> exists t :: Holds(t, ms) && adapter.seen == old(adapter.seen) + [t]
      ensures adapter.Calm() ==>
                exit == Fine && adapter.turn == old(adapter.turn) + 2 && held == Holds(adapter.fate(old(adapter.turn) + 1).timer, ms)
    {
      hide Along, Done, Recorded, Adapter.Calm;
      OneMore(n, adapter.acts, result, id, Set(ms));
      owed := true;
      exit := adapter.SetTimer(ms);
      if exit == OsError { return Fine, false; }
      if exit != Fine { return exit, false; }
      var t;
      exit, t := adapter.ReadTimer();
      held := Holds(t, ms);
    }

    static lemma DoneAlong(n: nat, acts: seq<Act>)
      requires Done(n, acts)
      ensures Along(acts) && |acts| == n
    {
    }

    // A stage's exit: the plan followed so far, and a refusal only at the start.
    ghost predicate StageExit(exit: Exit, n: nat)
      reads this`result, adapter`acts, adapter`ignoring
    {
      Follows() && exit != Refused && (adapter.ignoring ==> exit != Interrupted) && (exit == Fine ==> DoneTo(n))
    }

    // The baseline at 1 ms, answered.
    method DoBaseline() returns (exit: Exit)
      requires DoneTo(0)
      modifies this`result, adapter`turn, adapter`acts
      ensures StageExit(exit, 3) && (exit == Fine ==> adapter.acts[2].Observed? && Classify(adapter.acts[2].got, id) == Reply)
      ensures adapter.Calm() && old(adapter.turn) == 1 && Classify(adapter.fate(4).chunk, id) == Reply ==>
                exit == Fine && adapter.turn == 5
    {
      hide Along, Done, Classify, Plan, Adapter.Calm;
      PlanIs();
      exit := FlushInput(0);
      if exit != Fine { return; }
      exit := SendPing(1);
      if exit != Fine { return; }
      exit := Observe(Baseline, 2);
      if exit != Fine { return; }
      WindowDone(adapter.acts, 3, 2);
      if result[Baseline] != Reply { return Aborted; }
    }

    static lemma WindowDone(acts: seq<Act>, n: nat, k: nat)
      requires Done(n, acts) && k < n
      ensures KindOf(acts[k]) == Plan(k) && |acts| == n && Along(acts)
    {
    }

    static lemma PlanIs()
      ensures Plan(0) == Flush && Plan(1) == Ping && Plan(2) == Window(Baseline) && Plan(3) == Window(Drain)
      ensures Plan(4) == Flush && Plan(5) == SetTo(0) && Plan(6) == Ping && Plan(7) == Window(Zero)
      ensures Plan(8) == SetTo(WORKING_MS) && Plan(9) == Window(AfterSwitch) && Plan(10) == Ping && Plan(11) == Window(Control)
    {
    }

    // Drained and flushed, 0 ms held, one ping.
    method DoZero() returns (exit: Exit)
      requires DoneTo(3)
      modifies this`result, this`owed, adapter`turn, adapter`acts, adapter`seen
      ensures StageExit(exit, 8) && (old(owed) ==> owed) && old(adapter.acts) <= adapter.acts
      ensures exit == Fine ==> exists t :: Holds(t, 0) && adapter.seen == old(adapter.seen) + [t]
      ensures adapter.Calm() && old(adapter.turn) == 5 && Holds(adapter.fate(8).timer, 0) ==> exit == Fine && adapter.turn == 11
    {
      hide Along, Done, Recorded, Plan, Adapter.Calm;
      PlanIs();
      exit := Observe(Drain, 3);
      if exit != Fine { return; }
      exit := FlushInput(4);
      if exit != Fine { return; }
      var held;
      exit, held := SetAndCheck(0, 5);
      if exit != Fine { return; }
      if !held { return Aborted; }
      exit := SendPing(6);
      if exit != Fine { return; }
      exit := Observe(Zero, 7);
    }

    // 1 ms again, nothing sent: observed even when the value does not hold.
    method DoSwitch() returns (exit: Exit)
      requires DoneTo(8)
      modifies this`result, this`owed, adapter`turn, adapter`acts, adapter`seen
      ensures StageExit(exit, 10) && (old(owed) ==> owed) && old(adapter.acts) <= adapter.acts
      ensures exit == Fine ==> exists t :: Holds(t, WORKING_MS) && adapter.seen == old(adapter.seen) + [t]
      ensures adapter.Calm() && old(adapter.turn) == 11 && Holds(adapter.fate(12).timer, 1) ==> exit == Fine && adapter.turn == 14
    {
      hide Along, Done, Recorded, Plan, Adapter.Calm;
      PlanIs();
      var switched;
      exit, switched := SetAndCheck(WORKING_MS, 8);
      if exit != Fine { return; }
      exit := Observe(AfterSwitch, 9);
      if exit != Fine { return; }
      if !switched { return Aborted; }
    }

    // A fresh ping at 1 ms.
    method DoControl() returns (exit: Exit)
      requires DoneTo(10)
      modifies this`result, adapter`turn, adapter`acts
      ensures StageExit(exit, STEPS) && old(adapter.acts) <= adapter.acts
      ensures adapter.Calm() && old(adapter.turn) == 14 ==> exit == Fine && adapter.turn == 16
    {
      hide Along, Done, Recorded, Plan, Adapter.Calm;
      PlanIs();
      exit := SendPing(10);
      if exit != Fine { return; }
      exit := Observe(Control, 11);
    }

    // A sequence just completed.
    ghost predicate Completed()
      reads this`result, adapter`acts, adapter`seen
    {
      |adapter.acts| == STEPS && FinishedIn(adapter.acts, adapter.seen, result, id)
    }

    // The whole sequence: refused unless the working value holds at the start.
    method Sequence() returns (exit: Exit)
      requires adapter.acts == [] && adapter.seen == [] && !owed
      modifies this`result, this`owed, adapter`turn, adapter`acts, adapter`seen
      ensures Follows() && (adapter.ignoring ==> exit != Interrupted)
      ensures (!owed ==> adapter.acts == [] && exit != Fine && exit != Aborted) && (exit == Refused ==> !owed)
      ensures exit == Fine ==> Completed()
      ensures adapter.Calm() && old(adapter.turn) == 0 && Answered(adapter.fate, id) ==> exit == Fine && adapter.turn == 16
    {
      hide Classify, Plan, Adapter.Calm;
      assert DoneTo(0);
      hide Along, Done, Recorded;
      var t;
      exit, t := adapter.ReadTimer();
      if exit != Fine { return; }
      if !Holds(t, WORKING_MS) { return Refused; }
      owed := true;
      exit := DoBaseline();
      if exit != Fine { return; }
      exit := DoZero();
      if exit != Fine { return; }
      exit := DoSwitch();
      if exit != Fine { return; }
      exit := DoControl();
      assert exit == Fine ==> adapter.acts[..STEPS] == adapter.acts by { if exit == Fine { DoneAlong(STEPS, adapter.acts); } }
    }

    // What the cleanup may add: at most one attempt to set the working value.
    static ghost predicate Added(before: seq<Act>, after: seq<Act>) {
      after == before || after == before + [Set(WORKING_MS)]
    }

    ghost predicate ReadBack()
      reads adapter`seen
    {
      adapter.seen != [] && Holds(adapter.seen[|adapter.seen| - 1], WORKING_MS)
    }

    // Leaves the working value in effect: verified, or set again.
    method Cleanup() returns (exit: Exit, left: Option<Left>)
      modifies this`owed, adapter`turn, adapter`acts, adapter`seen
      ensures exit == Fine || (exit == Interrupted && !adapter.ignoring)
      ensures !old(owed) ==> exit == Fine && !owed && adapter.acts == old(adapter.acts) && adapter.seen == old(adapter.seen)
      ensures Added(old(adapter.acts), adapter.acts) && old(adapter.seen) <= adapter.seen
      ensures left.Some? <==> old(owed) && exit == Fine
      ensures old(owed) ==> (owed <==> left == None || left == Some(NotRestored)) && (!owed ==> ReadBack())
      ensures left == Some(Verified) ==> adapter.acts == old(adapter.acts)
      ensures left == Some(Restored) || left == Some(NotRestored) ==> adapter.acts == old(adapter.acts) + [Set(WORKING_MS)]
      ensures adapter.Calm() && old(owed) ==>
                var n := old(adapter.turn);
                if Holds(adapter.fate(n).timer, WORKING_MS) then left == Some(Verified) && adapter.turn == n + 1
                else left == Some(if Holds(adapter.fate(n + 2).timer, WORKING_MS) then Restored else NotRestored)
                     && adapter.turn == n + 3
    {
      hide Adapter.Calm;
      if !owed { return Fine, None; }
      var t;
      exit, t := adapter.ReadTimer();
      if exit == Interrupted { return exit, None; }
      if exit == Fine && Holds(t, WORKING_MS) {
        owed := false;
        return Fine, Some(Verified);
      }
      exit := adapter.SetTimer(WORKING_MS);
      if exit == Interrupted { return exit, None; }
      if exit == OsError { return Fine, Some(NotRestored); }
      exit, t := adapter.ReadTimer();
      if exit == Interrupted { return exit, None; }
      if exit == OsError { return Fine, Some(NotRestored); }
      if Holds(t, WORKING_MS) {
        owed := false;
        return Fine, Some(Restored);
      }
      return Fine, Some(NotRestored);
    }

    // The status of a run whose cleanup was not cut short.
    static function RunStatus(ended: Exit, cleanup: Option<Left>): int {
      match ended
      case Fine => if cleanup == Some(NotRestored) then 3 else 0
      case Refused => 2
      case Interrupted => 130
      case _ => 1
    }

    // The sequence, then the cleanup; an interrupt of the cleanup itself escapes.
    method Run() returns (exit: Exit, status: int)
      requires adapter.acts == [] && adapter.seen == [] && !owed && cleanupOk && !adapter.ignoring && report == BLANK
      modifies this, adapter`turn, adapter`acts, adapter`seen
      ensures exit == Fine || exit == Interrupted
      ensures Traced(1) && (owed || adapter.acts == [] || ReadBack())
      ensures report == BLANK.(ended := report.ended, cleanup := report.cleanup)
      ensures exit == Fine ==> status == RunStatus(report.ended, report.cleanup)
      ensures exit == Interrupted ==> cleanupOk && report.cleanup == None
      ensures exit == Fine ==> (owed <==> !cleanupOk) && (owed <==> report.cleanup == Some(NotRestored))
      ensures report.ended == Refused ==> adapter.acts == [] && !owed
      ensures report.ended == Fine ==> FinishedIn(adapter.acts, adapter.seen, result, id)
      ensures report.ended == Fine && exit == Fine ==> report.cleanup.Some?
      ensures report.ended == Fine && !owed ==> ReadBack()
      ensures report.ended == Fine && report.cleanup == Some(NotRestored) ==> |adapter.acts| > STEPS
      ensures adapter.Calm() && old(adapter.turn) == 0 && Answered(adapter.fate, id)
              && !Holds(adapter.fate(17).timer, 1) && !Holds(adapter.fate(19).timer, 1) ==>
                report == BLANK.(cleanup := Some(NotRestored)) && exit == Fine && adapter.turn == 20
    {
      hide Along, Done, Recorded, Classify, FinishedIn, Adapter.Calm, Answered;
      var ended := Sequence();
      var pausing := adapter.Pause();
      if pausing && ended == Fine { ended := Interrupted; }
      ghost var body, seen := adapter.acts, adapter.seen;
      report := report.(ended := ended);
      status := RunStatus(ended, None);
      var left;
      exit, left := Cleanup();
      assert Traced(1) by { assert adapter.acts == body + Tail(if adapter.acts == body then 0 else 1); }
      if ended == Fine { FinishedStays(body, seen, result, id, adapter.acts, adapter.seen); }
      if exit == Interrupted { return; }
      report := report.(cleanup := left);
      cleanupOk := left != Some(NotRestored);
      if !cleanupOk && status == 0 { status := 3; }
    }

    // Attempts to set the working value, and nothing else.
    static ghost function Tail(k: nat): seq<Act> {
      seq(k, _ => Set(WORKING_MS))
    }

    // The acts follow the plan, with at most k attempts to set the working value after them.
    ghost predicate Traced(k: nat)
      reads adapter`acts
    {
      exists body: seq<Act>, n: nat :: n <= k && Along(body) && adapter.acts == body + Tail(n)
    }
  }

  lemma TailsJoin(body: seq<Act>, n: nat, acts: seq<Act>)
    requires Hold.Added(body + Hold.Tail(n), acts)
    ensures acts == body + Hold.Tail(n) || acts == body + Hold.Tail(n + 1)
  {
    assert Hold.Tail(n) + [Set(WORKING_MS)] == Hold.Tail(n + 1);
  }

  // What a session's status promises.
  ghost predicate Promise(hold: Hold, status: int)
    reads hold, hold.adapter
  {
    && status in {0, 1, 2, 3, 130}
    // Once anything was done, the last readback is the working value or the status is not 0.
    && (hold.adapter.acts == [] || hold.ReadBack() || (status != 0 && hold.owed))
    && (hold.report.ended == Fine ==> FinishedIn(hold.adapter.acts, hold.adapter.seen, hold.result, hold.id))
    && (status == 0 || status == 3 ==> hold.report.ended == Fine)
    && (status == 0 ==> hold.ReadBack() && !hold.owed)
    && (status == 2 ==> hold.adapter.acts == [] && !hold.owed)
    && (status == 3 ==> |hold.adapter.acts| > STEPS)
  }

  // What the last cleanup left.
  function LastLeft(r: Report): Option<Left> {
    if r.retry.Some? then r.retry else r.cleanup
  }

  predicate Succeeded(left: Option<Left>) {
    left.Some? && left != Some(NotRestored)
  }

  /** The exit status as the notes account for it, by order of precedence. */
  function StatusOf(r: Report, invalid: bool): int {
    if r.interrupted || r.ended == Interrupted then 130
    else if r.ended == Refused then 2
    else if r.ended != Fine || r.recorderEnded then 1
    else if LastLeft(r) == Some(NotRestored) then 3
    else if invalid then 1
    else 0
  }

  // The run, and what an interrupt around it leaves.
  method Attempt(hold: Hold, alive: bool) returns (status: int)
    requires hold.adapter.acts == [] && hold.adapter.seen == [] && !hold.owed && hold.cleanupOk && !hold.adapter.ignoring
    requires hold.report == BLANK
    modifies hold, hold.adapter
    ensures Promise(hold, status) && hold.Traced(1)
    ensures !hold.owed ==> hold.cleanupOk
    ensures status == StatusOf(hold.report, false) && hold.report.retry == None
    ensures hold.report.recorderEnded <==> !alive && hold.report.ended == Fine && Succeeded(hold.report.cleanup)
    ensures hold.report.ended == Fine && !hold.report.interrupted ==> hold.report.cleanup.Some?
    ensures hold.report.cleanup.Some? ==> (hold.owed <==> hold.report.cleanup == Some(NotRestored))
    ensures hold.adapter.Calm() && old(hold.adapter.turn) == 0 && Answered(hold.adapter.fate, hold.id)
            && !Holds(hold.adapter.fate(17).timer, 1) && !Holds(hold.adapter.fate(19).timer, 1) ==>
              hold.report == BLANK.(cleanup := Some(NotRestored)) && hold.adapter.turn == 21
  {
    hide FinishedIn, Along, Adapter.Calm, Answered;
    var exit, ran := hold.Run();
    if exit == Interrupted {
      hold.report := hold.report.(interrupted := true);
      return 130;
    }
    status := ran;
    if status == 0 && !alive {
      hold.report := hold.report.(recorderEnded := true);
      status := 1;
    }
    var pausing := hold.adapter.Pause();
    if pausing {
      hold.report := hold.report.(interrupted := true);
      status := 130;
    }
  }

  /** The session around a run: `invalid` is whether its capture is no evidence. With signals
      ignored, a cleanup still owed is tried again. A recorder that ended early goes unreported,
      with status 0, exactly when the sequence finished, its cleanup failed uninterrupted, the
      second one succeeded, nothing interrupted the session and the capture is valid. */
  method Session(hold: Hold, alive: bool, invalid: bool) returns (status: int)
    requires hold.adapter.acts == [] && hold.adapter.seen == [] && !hold.owed && hold.cleanupOk && !hold.adapter.ignoring
    requires hold.report == BLANK
    modifies hold, hold.adapter
    ensures Promise(hold, status) && hold.Traced(2)
    ensures status == StatusOf(hold.report, invalid)
    ensures hold.report.recorderEnded <==> !alive && hold.report.ended == Fine && Succeeded(hold.report.cleanup)
    ensures hold.report.cleanup == Some(NotRestored) ==> hold.report.retry.Some?
    ensures Succeeded(hold.report.cleanup) ==> hold.report.retry == None
    ensures status == 0 && !alive <==>
              !alive && !invalid && hold.report.ended == Fine && hold.report.cleanup == Some(NotRestored)
              && Succeeded(hold.report.retry) && !hold.report.interrupted
    ensures RestoredLate(hold.adapter.fate, hold.id) && hold.adapter.Calm() && old(hold.adapter.turn) == 0 ==>
              hold.report == Report(Fine, Some(NotRestored), false, false, Some(Verified))
  {
    hide FinishedIn, Along, Adapter.Calm, Answered;
    status := Attempt(hold, alive);
    ghost var body, n :| n <= 1 && Along(body) && hold.adapter.acts == body + Hold.Tail(n);
    hold.adapter.ignoring := true;
    if hold.owed {
      ghost var acts, seen := hold.adapter.acts, hold.adapter.seen;
      var again, left := hold.Cleanup();
      TailsJoin(body, n, hold.adapter.acts);
      if hold.report.ended == Fine { FinishedStays(acts, seen, hold.result, hold.id, hold.adapter.acts, hold.adapter.seen); }
      hold.report := hold.report.(retry := left);
      hold.cleanupOk := left != Some(NotRestored);
      if status == 3 && hold.cleanupOk { status := 0; }
    }
    if !hold.cleanupOk && status == 0 { status := 3; }
    if invalid && status == 0 { status := 1; }
  }

  // An answered run whose first cleanup finds the working value lost and cannot set it, and
  // whose second one finds it back.
  ghost predicate RestoredLate(fate: nat -> Fate, id: bv8) {
    && Answered(fate, id)
    && !Holds(fate(17).timer, 1) && !Holds(fate(19).timer, 1) && Holds(fate(21).timer, 1)
  }

  function LateFate(id: bv8): nat -> Fate {
    n => var ms := if n == 8 || n == 17 || n == 19 then 0 else 1;
         Fate(Smooth, Smooth, 10, Timer(Some(ms), Some(ms), Some(false)), StatusPacket(id, 0, 0, 0, 0), if n == 3 then 1 else 0)
  }

  lemma StatusPacketReplies(id: bv8)
    ensures Classify(StatusPacket(id, 0, 0, 0, 0), id) == Reply
  {
    hide Classify, StatusPacket;
    var p := StatusPacket(id, 0, 0, 0, 0);
    ReplyIff(p, id);
    assert |p| == 14 && HeaderAt(p, 0) by { StatusParts(id, 0, 0, 0, 0); }
    assert p[0..14] == p;
    assert FirstHeader(p, 0) && StartsWith(p, 0, p);
  }

  /** Such a session over a recorder that ended early, run on a fresh adapter: its status is 0. */
  method LateRestoreHidesTheRecorder(id: bv8) returns (hold: Hold, status: int)
    ensures fresh(hold) && hold.adapter.fate == LateFate(id)
    ensures status == 0 && !hold.report.recorderEnded
  {
    hide Classify, StatusPacket, FinishedIn, Along;
    StatusPacketReplies(id);
    var adapter := new Adapter(LateFate(id));
    assert adapter.Calm();
    hold := new Hold(adapter, id);
    status := Session(hold, false, false);
  }

  ghost predicate IsSet(a: Act, ms: int) { a == Set(ms) }

  function Pings(acts: seq<Act>): nat {
    if acts == [] then 0 else Pings(acts[..|acts| - 1]) + if acts[|acts| - 1].Pinged? then 1 else 0
  }

  lemma TracedKind(body: seq<Act>, n: nat, k: nat)
    requires Along(body) && k < |body| + n
    ensures var a := (body + Hold.Tail(n))[k];
      if k < |body| then KindOf(a) == Plan(k) else a == Set(WORKING_MS)
  {
  }

  lemma {:induction false} FewPings(body: seq<Act>)
    requires Along(body)
    ensures Pings(body) <= if |body| >= 11 then 3 else if |body| >= 7 then 2 else if |body| >= 2 then 1 else 0
  {
    if body != [] {
      var init := body[..|body| - 1];
      assert KindOf(body[|body| - 1]) == Plan(|body| - 1);
      assert forall k | 0 <= k < |init| :: init[k] == body[k];
      FewPings(init);
    }
  }

  /** However a run is cut short, at most three pings are attempted. */
  lemma AtMostThreePings(body: seq<Act>, n: nat)
    requires Along(body)
    ensures Pings(body + Hold.Tail(n)) <= 3
    decreases n
  {
    if n == 0 {
      assert body + Hold.Tail(0) == body;
      FewPings(body);
    } else {
      AtMostThreePings(body, n - 1);
      assert (body + Hold.Tail(n))[..|body| + n - 1] == body + Hold.Tail(n - 1);
    }
  }

  /** Between setting 0 ms and the return to 1 ms at most one ping is attempted. */
  lemma OnePingAtZero(body: seq<Act>, n: nat, i: nat, j: nat, k: nat)
    requires Along(body) && i < j < k < |body| + n
    requires var acts := body + Hold.Tail(n); IsSet(acts[i], 0) && acts[j].Pinged? && acts[k].Pinged?
    ensures exists m :: j < m < k && IsSet((body + Hold.Tail(n))[m], WORKING_MS)
  {
    hide Plan;
    var acts := body + Hold.Tail(n);
    TracedKind(body, n, i);
    TracedKind(body, n, j);
    TracedKind(body, n, k);
    PingPlaces(i, j, k);
    TracedKind(body, n, 8);
    assert Plan(8) == SetTo(WORKING_MS) by { Hold.PlanIs(); }
    assert IsSet(acts[8], WORKING_MS);
  }

  lemma PingPlaces(i: nat, j: nat, k: nat)
    requires i < j < k < STEPS && Plan(i) == SetTo(0) && Plan(j) == Ping && (Plan(k) == Ping || Plan(k) == Flush)
    ensures i == 5 && j == 6 && k == 10
  {
  }

  /** From the 0 ms ping to the end of the window after the switch nothing is written or flushed. */
  lemma QuietAfterZeroPing(body: seq<Act>, n: nat, i: nat, j: nat, k: nat)
    requires Along(body) && i < j < k < |body| + n
    requires var acts := body + Hold.Tail(n); IsSet(acts[i], 0) && acts[j].Pinged? && (acts[k].Pinged? || acts[k].Flushed?)
    ensures exists m :: j < m < k && KindOf((body + Hold.Tail(n))[m]) == Window(AfterSwitch)
  {
    hide Plan;
    var acts := body + Hold.Tail(n);
    TracedKind(body, n, i);
    TracedKind(body, n, j);
    TracedKind(body, n, k);
    PingPlaces(i, j, k);
    TracedKind(body, n, 9);
    assert Plan(9) == Window(AfterSwitch) by { Hold.PlanIs(); }
    assert KindOf(acts[9]) == Window(AfterSwitch);
  }

  /** A finished run wrote exactly three pings, each whole. */
  lemma ThreeWholePings(acts: seq<Act>)
    requires Done(STEPS, acts)
    ensures acts[1] == Pinged(true) && acts[6] == Pinged(true) && acts[10] == Pinged(true)
    ensures forall k | 0 <= k < STEPS && acts[k].Pinged? :: k == 1 || k == 6 || k == 10
  {
    assert KindOf(acts[1]) == Plan(1) && KindOf(acts[6]) == Plan(6) && KindOf(acts[10]) == Plan(10);
    forall k | 0 <= k < STEPS && acts[k].Pinged? ensures k == 1 || k == 6 || k == 10 {
      assert KindOf(acts[k]) == Plan(k) == Ping;
    }
  }
}
