/** apps/common/lagged_arm.hpp and apps/common/latency_verifier.hpp: a command pipeline of fixed
    depth, and the run-time monitor that matches each submission to its first application. */
module LaggedPipeline {
  // A current command; the empty one asks for no current.
  datatype Command = Command(tau: seq<real>)

  const ZERO := Command([])

  // The newest application the arm reports, and the receipt of one submission.
  datatype Applied = Applied(valid: bool, seqNo: nat, firstTime: real)

  datatype Receipt = Receipt(accepted: bool, seqNo: nat, time: real)

  datatype Entry = Entry(cmd: Command, seqNo: nat)

  // One write that reached the inner arm: when, what, and whether it was taken.
  datatype Written = Written(entry: Entry, at: real, ok: bool)

  function Repeat(n: nat): (r: seq<Entry>)
    ensures |r| == n && forall k | 0 <= k < n :: r[k] == Entry(ZERO, 0)
  {
    if n == 0 then [] else Repeat(n - 1) + [Entry(ZERO, 0)]
  }

  // The submissions, numbered from 1.
  function Numbered(cmds: seq<Command>): (r: seq<Entry>)
    ensures |r| == |cmds| && forall k | 0 <= k < |r| :: r[k] == Entry(cmds[k], k + 1)
  {
    seq(|cmds|, k requires 0 <= k < |cmds| => Entry(cmds[k], k + 1))
  }

  // What the queue hands on, in order: the preload or the first command again, then the submissions.
  function Stream(delay: nat, legacy: bool, cmds: seq<Command>): seq<Entry> {
    if !legacy then Repeat(delay) + Numbered(cmds)
    else if cmds == [] then []
    else [Entry(cmds[0], 1)] + Numbered(cmds)
  }

  lemma StreamGrows(delay: nat, legacy: bool, cmds: seq<Command>, c: Command)
    ensures legacy && cmds == [] ==>
              Stream(delay, legacy, cmds) == [] && Stream(delay, legacy, cmds + [c]) == [Entry(c, 1), Entry(c, 1)]
    ensures !legacy || cmds != [] ==>
              Stream(delay, legacy, cmds + [c]) == Stream(delay, legacy, cmds) + [Entry(c, |cmds| + 1)]
    ensures |Stream(delay, legacy, cmds)| == |cmds| + (if !legacy then delay else if cmds == [] then 0 else 1)
  {
    var grown := Numbered(cmds + [c]);
    assert grown == Numbered(cmds) + [Entry(c, |cmds| + 1)];
  }

  // The record kept after these writes: the last one the inner arm took.
  function LastTaken(log: seq<Written>): Applied {
    if log == [] then Applied(false, 0, 0.0)
    else
      var w := log[|log| - 1];
      if w.ok then Applied(true, w.entry.seqNo, w.at) else LastTaken(log[..|log| - 1])
  }

  lemma LastTakenMore(log: seq<Written>, w: Written)
    ensures LastTaken(log + [w]) == if w.ok then Applied(true, w.entry.seqNo, w.at) else LastTaken(log)
  {
    assert (log + [w])[..|log|] == log;
  }

  /** The wrapper. `log` is what reached the inner arm and `cmds` what was submitted. */
  class LaggedArm {
    const delay: nat
    const legacy: bool
    var pending: seq<Entry>
    var seqNo: nat
    var primed: bool
    var lastTime: real
    var applied: Applied
    ghost var log: seq<Written>
    ghost var cmds: seq<Command>

    ghost predicate Valid()
      reads this
    {
      && (legacy || delay >= 1)
      && seqNo == |cmds| == |log| && primed == (legacy && cmds != [])
      && applied == LastTaken(log)
      && |log| <= |Stream(delay, legacy, cmds)|
      && (forall k | 0 <= k < |log| :: log[k].entry == Stream(delay, legacy, cmds)[k])
      && pending == Stream(delay, legacy, cmds)[|log|..]
    }

    constructor (delay: nat, legacy: bool)
      requires legacy || delay >= 1
      ensures Valid() && log == [] && cmds == [] && this.delay == delay && this.legacy == legacy
    {
      this.delay, this.legacy := delay, legacy;
      pending := if legacy then [] else Repeat(delay);
      seqNo, primed, lastTime, applied := 0, false, 0.0, Applied(false, 0, 0.0);
      log, cmds := [], [];
    }

    // The inner arm's time becomes the wrapper's; the snapshot is the wrapper's own record.
    method ReadState(t: real) returns (snapshot: Applied)
      requires Valid()
      modifies this`lastTime
      ensures Valid() && lastTime == t && snapshot == LastTaken(log)
    {
      lastTime := t;
      snapshot := applied;
    }

    /** Hands the inner arm the next of the stream, and queues the submission behind it; `taken`
        is whether the inner arm takes the write. */
    method WriteCommand(cmd: Command, taken: bool) returns (receipt: Receipt)
      requires Valid()
      modifies this
      ensures Valid() && lastTime == old(lastTime) && cmds == old(cmds) + [cmd]
      ensures receipt == Receipt(taken, |cmds|, lastTime)
      ensures log == old(log) + [Written(Stream(delay, legacy, cmds)[|old(log)|], lastTime, taken)]
    {
      hide Stream, LastTaken, Repeat, Numbered;
      seqNo := seqNo + 1;
      StreamGrows(delay, legacy, cmds, cmd);
      var front: Entry;
      if legacy && !primed {
        primed := true;
        front := Entry(cmd, seqNo);
        pending := [];
      } else {
        front := pending[0];
        pending := pending[1..];
      }
      if taken { applied := Applied(true, front.seqNo, lastTime); }
      pending := pending + [Entry(cmd, seqNo)];
      LastTakenMore(log, Written(front, lastTime, taken));
      log := log + [Written(front, lastTime, taken)];
      cmds := cmds + [cmd];
      receipt := Receipt(taken, seqNo, lastTime);
    }
  }

  /** Preloaded, the k-th write hands on submission k - delay; before that, zero current. */
  lemma PreloadedDelay(arm: LaggedArm, k: nat)
    requires arm.Valid() && !arm.legacy && k < |arm.log|
    ensures arm.log[k].entry
         == if k < arm.delay then Entry(ZERO, 0) else Entry(arm.cmds[k - arm.delay], k - arm.delay + 1)
  {
  }

  /** In the legacy start the first submission is written twice and every later one a write late. */
  lemma LegacyDelay(arm: LaggedArm, k: nat)
    requires arm.Valid() && arm.legacy && k < |arm.log|
    ensures arm.log[k].entry == if k == 0 then Entry(arm.cmds[0], 1) else Entry(arm.cmds[k - 1], k)
  {
  }

  // Write k is the last one taken; write f is the first one taken of its number.
  ghost predicate LastApplied(log: seq<Written>, k: nat) {
    k < |log| && log[k].ok && forall j | k < j < |log| :: !log[j].ok
  }

  ghost predicate FirstApplied(log: seq<Written>, seqNo: nat, f: nat) {
    && f < |log| && log[f].ok && log[f].entry.seqNo == seqNo
    && forall j | 0 <= j < f :: !(log[j].ok && log[j].entry.seqNo == seqNo)
  }

  lemma {:induction false} RecordOfLast(log: seq<Written>, k: nat)
    requires LastApplied(log, k)
    ensures LastTaken(log) == Applied(true, log[k].entry.seqNo, log[k].at)
    decreases |log|
  {
    if k < |log| - 1 { RecordOfLast(log[..|log| - 1], k); }
  }

  // The last write taken is not the first of its number: the legacy start's second write of the
  // first submission, or a preloaded zero after another.
  ghost predicate Again(arm: LaggedArm, k: nat)
    reads arm
    requires k < |arm.log|
  {
    if arm.legacy then k == 1 && arm.log[0].ok
    else k < arm.delay && exists j | 0 <= j < k :: arm.log[j].ok
  }

  lemma AgainIff(arm: LaggedArm, k: nat, f: nat)
    requires arm.Valid() && k < |arm.log| && arm.log[k].ok && FirstApplied(arm.log, arm.log[k].entry.seqNo, f)
    ensures f <= k && (f < k <==> Again(arm, k))
  {
    hide Stream, LastTaken;
    forall j | 0 <= j < |arm.log|
      ensures arm.log[j].entry.seqNo == if arm.legacy then if j == 0 then 1 else j else if j < arm.delay then 0 else j - arm.delay + 1
    {
      if arm.legacy { LegacyDelay(arm, j); } else { PreloadedDelay(arm, j); }
    }
  }

  /** The first application time the record shows is that of its number's first application exactly
      when the last write taken is no repetition, or came at the same time: a submission's is
      wrong only after the legacy start's second write, with the first one taken as well. */
  lemma FirstTimeKeptIff(arm: LaggedArm, k: nat, f: nat)
    requires arm.Valid() && LastApplied(arm.log, k) && FirstApplied(arm.log, arm.log[k].entry.seqNo, f)
    ensures arm.applied == Applied(true, arm.log[k].entry.seqNo, arm.log[k].at)
    ensures arm.applied.firstTime == arm.log[f].at <==> !(Again(arm, k) && arm.log[f].at != arm.log[k].at)
    ensures arm.applied.seqNo > 0 && Again(arm, k) ==> arm.legacy && f == 0 && k == 1
  {
    hide Stream, LastTaken;
    RecordOfLast(arm.log, k);
    AgainIff(arm, k, f);
    if arm.legacy { LegacyDelay(arm, k); } else { PreloadedDelay(arm, k); }
  }

  /** The legacy start's first two writes, both taken: the record shows the second one's time as
      the first application of submission 1, which was written at the first one's. */
  method TwoLegacyWrites(delay: nat, first: Command, second: Command, t0: real, t1: real)
    returns (snapshot: Applied, ghost log: seq<Written>)
    ensures snapshot == Applied(true, 1, t1)
    ensures log == [Written(Entry(first, 1), t0, true), Written(Entry(first, 1), t1, true)]
    ensures FirstApplied(log, 1, 0)
  {
    hide Stream, LastTaken;
    var arm := new LaggedArm(delay, true);
    snapshot := arm.ReadState(t0);
    var receipt := arm.WriteCommand(first, true);
    LegacyDelay(arm, 0);
    ghost var before := arm.log;
    snapshot := arm.ReadState(t1);
    receipt := arm.WriteCommand(second, true);
    LegacyDelay(arm, 0);
    LegacyDelay(arm, 1);
    log := arm.log;
    RecordOfLast(log, 1);
    snapshot := arm.ReadState(t1);
  }
}

module LatencyMonitor {
  import opened Basics
  import opened LaggedPipeline

  // One cycle: the feedback time, the snapshot read with it, and the receipt of its submission.
  datatype Observation = Observation(time: real, applied: Applied, receipt: Receipt)

  // Submissions not seen applied yet, by number; and the last delay matched.
  datatype Monitor = Monitor(pending: map<nat, real>, cachedSeq: nat, cached: Option<real>)

  const FRESH := Monitor(map[], 0, None)

  function Bound(nominal: real): real {
    2.0 * nominal + 0.000000001
  }

  // The snapshot shows a tracked submission applied.
  predicate Matches(m: Monitor, o: Observation) {
    o.applied.valid && o.applied.seqNo in m.pending
  }

  function Waiting(m: Monitor, o: Observation): map<nat, real> {
    if Matches(m, o) then m.pending - {o.applied.seqNo} else m.pending
  }

  predicate Skipped(m: Monitor, o: Observation) {
    o.applied.valid && exists s | s in m.pending :: s < o.applied.seqNo
  }

  predicate Overdue(waiting: map<nat, real>, now: real, bound: real) {
    exists s | s in waiting :: now - waiting[s] > bound
  }

  predicate Passes(m: Monitor, o: Observation, bound: real) {
    && !Skipped(m, o)
    && (Matches(m, o) ==> o.applied.firstTime - m.pending[o.applied.seqNo] <= bound)
    && !Overdue(Waiting(m, o), o.time, bound)
  }

  function After(m: Monitor, o: Observation): Monitor {
    var left := Waiting(m, o);
    Monitor(if o.receipt.accepted then left[o.receipt.seqNo := o.receipt.time] else left,
            if Matches(m, o) then o.applied.seqNo else m.cachedSeq,
            if Matches(m, o) then Some(o.applied.firstTime - m.pending[o.applied.seqNo]) else m.cached)
  }

  // The delay reported: matched now, or the cached one while its submission is still current.
  function Reported(m: Monitor, o: Observation): Option<real> {
    if Matches(m, o) then After(m, o).cached
    else if o.applied.valid && o.applied.seqNo == m.cachedSeq then m.cached
    else None
  }

  class LatencyVerifier {
    const bound: real
    var pending: map<nat, real>
    var cachedSeq: nat
    var cached: Option<real>

    function Now(): Monitor
      reads this
    {
      Monitor(pending, cachedSeq, cached)
    }

    constructor (nominal: real)
      ensures bound == 2.0 * nominal + 0.000000001 && Now() == FRESH
    {
      bound := Bound(nominal);
      pending, cachedSeq, cached := map[], 0, None;
    }

    method AnySkipped(seqNo: nat) returns (skipped: bool)
      ensures skipped == exists s | s in pending :: s < seqNo
    {
      var left := pending.Keys;
      while left != {}
        invariant left <= pending.Keys && forall s | s in pending && s !in left :: s >= seqNo
        decreases |left|
      {
        var s :| s in left;
        if s < seqNo { return true; }
        left := left - {s};
      }
      return false;
    }

    method AnyOverdue(now: real) returns (overdue: bool)
      ensures overdue == Overdue(pending, now, bound)
    {
      var left := pending.Keys;
      while left != {}
        invariant left <= pending.Keys && forall s | s in pending && s !in left :: now - pending[s] <= bound
        decreases |left|
      {
        var s :| s in left;
        if now - pending[s] > bound { return true; }
        left := left - {s};
      }
      return false;
    }

    method Check(o: Observation) returns (ok: bool, delay: Option<real>)
      modifies this
      ensures ok == Passes(old(Now()), o, bound)
      ensures ok ==> Now() == After(old(Now()), o) && delay == Reported(old(Now()), o)
    {
      delay := None;
      if o.applied.valid {
        var skipped := AnySkipped(o.applied.seqNo);
        if skipped { return false, None; }
        if o.applied.seqNo in pending {
          var first := o.applied.firstTime - pending[o.applied.seqNo];
          delay, cachedSeq, cached := Some(first), o.applied.seqNo, Some(first);
          pending := pending - {o.applied.seqNo};
          if first > bound { return false, None; }
        } else if o.applied.seqNo == cachedSeq {
          delay := cached;
        }
      }
      var overdue := AnyOverdue(o.time);
      if overdue { return false, None; }
      if o.receipt.accepted { pending := pending[o.receipt.seqNo := o.receipt.time]; }
      return true, delay;
    }
  }

  function StateAfter(obs: seq<Observation>): Monitor {
    if obs == [] then FRESH else After(StateAfter(obs[..|obs| - 1]), obs[|obs| - 1])
  }

  predicate AllPass(obs: seq<Observation>, bound: real) {
    obs == [] || (AllPass(obs[..|obs| - 1], bound) && Passes(StateAfter(obs[..|obs| - 1]), obs[|obs| - 1], bound))
  }

  // Accepted submissions carry ever larger numbers, as the arms issue them.
  ghost predicate Numbering(obs: seq<Observation>) {
    forall i, j | 0 <= i < j < |obs| && obs[i].receipt.accepted && obs[j].receipt.accepted ::
      obs[i].receipt.seqNo < obs[j].receipt.seqNo
  }

  // Snapshot j shows submission i applied.
  ghost predicate Shows(obs: seq<Observation>, i: nat, j: nat)
    requires i < j < |obs|
  {
    obs[j].applied.valid && obs[j].applied.seqNo == obs[i].receipt.seqNo
  }

  // Snapshot j shows nothing submitted after i, and comes within the bound of it.
  ghost predicate NotPassed(obs: seq<Observation>, i: nat, j: nat, bound: real)
    requires i < j < |obs|
  {
    && (obs[j].applied.valid ==> obs[j].applied.seqNo <= obs[i].receipt.seqNo)
    && (!Shows(obs, i, j) ==> obs[j].time - obs[i].receipt.time <= bound)
  }

  // First shown at j, within the bound, and never overtaken before.
  ghost predicate AppliedInTime(obs: seq<Observation>, i: nat, bound: real) {
    exists j :: i < j < |obs| && AppliedAt(obs, i, j, bound)
  }

  ghost predicate AppliedAt(obs: seq<Observation>, i: nat, j: nat, bound: real)
    requires i < j < |obs|
  {
    && Shows(obs, i, j) && obs[j].applied.firstTime - obs[i].receipt.time <= bound
    && forall m | i < m <= j :: NotPassed(obs, i, m, bound)
  }

  ghost predicate StillInTime(obs: seq<Observation>, i: nat, bound: real) {
    forall m | i < m < |obs| :: !Shows(obs, i, m) && NotPassed(obs, i, m, bound)
  }

  lemma {:induction false} SubmissionFollowed(obs: seq<Observation>, i: nat, bound: real)
    requires i < |obs| && Numbering(obs) && AllPass(obs, bound) && obs[i].receipt.accepted
    ensures AppliedInTime(obs, i, bound)
            || (StillInTime(obs, i, bound)
                && var pending := StateAfter(obs).pending;
                   obs[i].receipt.seqNo in pending && pending[obs[i].receipt.seqNo] == obs[i].receipt.time)
    decreases |obs|
  {
    hide Skipped, Overdue;
    var n := |obs| - 1;
    if i < n {
      var init := obs[..n];
      SubmissionFollowed(init, i, bound);
      if AppliedInTime(init, i, bound) {
        var j :| i < j < |init| && AppliedAt(init, i, j, bound);
        AppliedStays(obs, i, j, bound);
      } else {
        StepFollowed(obs, i, bound);
      }
    }
  }

  lemma AppliedStays(obs: seq<Observation>, i: nat, j: nat, bound: real)
    requires i < j < |obs| - 1 && AppliedAt(obs[..|obs| - 1], i, j, bound)
    ensures AppliedInTime(obs, i, bound)
  {
    var init := obs[..|obs| - 1];
    forall m | i < m <= j ensures NotPassed(obs, i, m, bound) { assert NotPassed(init, i, m, bound); }
    assert Shows(init, i, j);
    assert AppliedAt(obs, i, j, bound);
  }

  lemma StepFollowed(obs: seq<Observation>, i: nat, bound: real)
    requires i < |obs| - 1 && Numbering(obs) && AllPass(obs, bound) && obs[i].receipt.accepted
    requires StillInTime(obs[..|obs| - 1], i, bound)
    requires var pending := StateAfter(obs[..|obs| - 1]).pending;
             obs[i].receipt.seqNo in pending && pending[obs[i].receipt.seqNo] == obs[i].receipt.time
    ensures AppliedInTime(obs, i, bound)
            || (StillInTime(obs, i, bound)
                && var pending := StateAfter(obs).pending;
                   obs[i].receipt.seqNo in pending && pending[obs[i].receipt.seqNo] == obs[i].receipt.time)
  {
    var n := |obs| - 1;
    var init, o := obs[..n], obs[n];
    var m := StateAfter(init);
    var s := obs[i].receipt.seqNo;
    assert Passes(m, o, bound);
    forall k | i < k < n ensures !Shows(obs, i, k) && NotPassed(obs, i, k, bound) {
      assert !Shows(init, i, k) && NotPassed(init, i, k, bound);
    }
    assert NotPassed(obs, i, n, bound) by {
      assert o.applied.valid && s < o.applied.seqNo ==> Skipped(m, o);
      assert !Shows(obs, i, n) ==> s in Waiting(m, o);
    }
    if Shows(obs, i, n) {
      assert Matches(m, o) && AppliedAt(obs, i, n, bound);
    } else {
      assert s in Waiting(m, o) && (o.receipt.accepted ==> s < o.receipt.seqNo);
    }
  }

  /** Whatever the arm does, while every check passes each accepted submission was applied in
      time and unskipped, or is still pending in time. */
  lemma MonitorSound(obs: seq<Observation>, i: nat, bound: real)
    requires i < |obs| && Numbering(obs) && AllPass(obs, bound) && obs[i].receipt.accepted
    ensures AppliedInTime(obs, i, bound) || StillInTime(obs, i, bound)
  {
    SubmissionFollowed(obs, i, bound);
  }

  // Submission i is accepted, and no snapshot before n shows it applied.
  ghost predicate Unseen(obs: seq<Observation>, i: nat, n: nat)
    requires i < n <= |obs|
  {
    obs[i].receipt.accepted && forall m | i < m < n :: !Shows(obs, i, m)
  }

  ghost predicate PendingAs(obs: seq<Observation>, i: nat, pending: map<nat, real>)
    requires i < |obs|
  {
    obs[i].receipt.seqNo in pending && pending[obs[i].receipt.seqNo] == obs[i].receipt.time
  }

  lemma UnseenPending(obs: seq<Observation>, i: nat)
    requires i < |obs| && Numbering(obs) && Unseen(obs, i, |obs|)
    ensures PendingAs(obs, i, StateAfter(obs).pending)
  {
    var n := |obs| - 1;
    if i < n {
      forall m | i < m < n ensures !Shows(obs[..n], i, m) { assert !Shows(obs, i, m); }
      UnseenPending(obs[..n], i);
      assert !Shows(obs, i, n);
    }
  }

  lemma PendingUnseen(obs: seq<Observation>, s: nat) returns (i: nat)
    requires s in StateAfter(obs).pending && Numbering(obs)
    ensures i < |obs| && Unseen(obs, i, |obs|) && obs[i].receipt.seqNo == s && PendingAs(obs, i, StateAfter(obs).pending)
  {
    var n := |obs| - 1;
    if obs[n].receipt.accepted && obs[n].receipt.seqNo == s {
      i := n;
    } else {
      i := PendingUnseen(obs[..n], s);
      forall m | i < m < |obs| ensures !Shows(obs, i, m) {
        if m < n { assert !Shows(obs[..n], i, m); }
      }
    }
  }

  // Snapshot n treats submission i as the bound asks.
  ghost predicate Honoured(obs: seq<Observation>, i: nat, n: nat, bound: real)
    requires i < n < |obs|
  {
    NotPassed(obs, i, n, bound) && (Shows(obs, i, n) ==> obs[n].applied.firstTime - obs[i].receipt.time <= bound)
  }

  /** A check passes exactly when it honours every accepted submission not seen applied before. */
  lemma CheckExact(obs: seq<Observation>, bound: real)
    requires obs != [] && Numbering(obs)
    ensures var n := |obs| - 1;
      Passes(StateAfter(obs[..n]), obs[n], bound) <==> forall i | 0 <= i < n && Unseen(obs, i, n) :: Honoured(obs, i, n, bound)
  {
    var n := |obs| - 1;
    var m, o := StateAfter(obs[..n]), obs[n];
    if Passes(m, o, bound) {
      forall i | 0 <= i < n && Unseen(obs, i, n) ensures Honoured(obs, i, n, bound) {
        UnseenInit(obs, i);
        UnseenPending(obs[..n], i);
        HonouredByPassing(obs, i, bound);
      }
    }
    if forall i | 0 <= i < n && Unseen(obs, i, n) :: Honoured(obs, i, n, bound) {
      forall s | s in m.pending ensures HonouredKey(m, o, s, bound) {
        var i := PendingUnseen(obs[..n], s);
        UnseenInit(obs, i);
        assert Honoured(obs, i, n, bound);
      }
      PassesByKeys(m, o, bound);
    }
  }

  // What one pending submission asks of a check.
  ghost predicate HonouredKey(m: Monitor, o: Observation, s: nat, bound: real)
    requires s in m.pending
  {
    && (o.applied.valid ==> o.applied.seqNo <= s)
    && (if o.applied.valid && o.applied.seqNo == s then o.applied.firstTime - m.pending[s] <= bound
        else o.time - m.pending[s] <= bound)
  }

  lemma PassesByKeys(m: Monitor, o: Observation, bound: real)
    ensures Passes(m, o, bound) <==> forall s | s in m.pending :: HonouredKey(m, o, s, bound)
  {
    if Passes(m, o, bound) {
      forall s | s in m.pending ensures HonouredKey(m, o, s, bound) {
        assert !Matches(m, o) || o.applied.seqNo != s ==> s in Waiting(m, o);
      }
    }
    if forall s | s in m.pending :: HonouredKey(m, o, s, bound) {
      assert Matches(m, o) ==> HonouredKey(m, o, o.applied.seqNo, bound);
      assert forall s | s in Waiting(m, o) :: HonouredKey(m, o, s, bound);
    }
  }

  lemma UnseenInit(obs: seq<Observation>, i: nat)
    requires i < |obs| - 1
    ensures Unseen(obs, i, |obs| - 1) <==> Unseen(obs[..|obs| - 1], i, |obs| - 1)
  {
    var n := |obs| - 1;
    assert forall m | i < m < n :: Shows(obs, i, m) <==> Shows(obs[..n], i, m);
  }

  lemma HonouredByPassing(obs: seq<Observation>, i: nat, bound: real)
    requires i < |obs| - 1 && PendingAs(obs, i, StateAfter(obs[..|obs| - 1]).pending)
    requires Passes(StateAfter(obs[..|obs| - 1]), obs[|obs| - 1], bound)
    ensures Honoured(obs, i, |obs| - 1, bound)
  {
    var m, o := StateAfter(obs[..|obs| - 1]), obs[|obs| - 1];
    PassesByKeys(m, o, bound);
    assert HonouredKey(m, o, obs[i].receipt.seqNo, bound);
  }
}

/** The wrapper under its monitor, at a uniform period: each cycle reads the snapshot, submits,
    and checks the snapshot with that submission's receipt. */
module PipelineUnderMonitor {
  import opened LaggedPipeline
  import opened LatencyMonitor

  function Tick(start: real, period: real, k: int): real {
    start + k as real * period
  }

  lemma TicksApart(start: real, period: real, j: int, k: int)
    ensures Tick(start, period, k) - Tick(start, period, j) == (k - j) as real * period
  {
    assert (k - j) as real == k as real - j as real;
  }

  // The newest submission applied by the time of cycle k's snapshot, and the cycles since it came.
  function Reached(delay: nat, legacy: bool, k: nat): nat {
    if legacy then if k <= 1 then k else k - 1
    else if k <= delay then 0 else k - delay
  }

  function Lag(delay: nat, legacy: bool, k: nat): nat {
    k - Reached(delay, legacy, k)
  }

  function Overrun(lag: nat, period: real): real {
    lag as real * period
  }

  lemma OverrunMonotone(a: nat, b: nat, period: real)
    requires a <= b && period >= 0.0
    ensures Overrun(a, period) <= Overrun(b, period)
  {
    assert (b - a) as real * period >= 0.0;
    assert Overrun(b, period) - Overrun(a, period) == (b - a) as real * period;
  }

  // Exactly the submissions above lo, up to number k, are pending.
  ghost predicate Window(pending: map<nat, real>, lo: nat, k: nat, start: real, period: real) {
    && (forall s: nat :: s in pending <==> lo < s <= k)
    && (forall s | s in pending :: pending[s] == Tick(start, period, s - 1))
  }

  // A snapshot that shows submission hi, lo or lo + 1, applied a cycle ago passes exactly when
  // the cycles since hi come within the bound.
  lemma WindowPasses(m: Monitor, o: Observation, lo: nat, hi: nat, k: nat, start: real, period: real, bound: real)
    requires Window(m.pending, lo, k, start, period) && lo <= hi <= lo + 1 && hi <= k
    requires o.applied.valid == (k > 0) && o.time == Tick(start, period, k)
    requires k > 0 ==> o.applied.seqNo == hi && o.applied.firstTime == Tick(start, period, k - 1)
    requires period >= 0.0 && bound >= 0.0
    ensures Passes(m, o, bound) <==> Overrun(k - hi, period) <= bound
    ensures Window(Waiting(m, o), hi, k, start, period)
  {
    hide Tick, Overrun;
    forall s | s in m.pending
      ensures HonouredKey(m, o, s, bound)
         <==> Overrun(if s == hi then k - hi else k + 1 - s, period) <= bound
    {
      Ages(start, period, s, k);
    }
    PassesByKeys(m, o, bound);
    forall s | s in m.pending && hi < s ensures Overrun(k + 1 - s, period) <= Overrun(k - hi, period) {
      OverrunMonotone(k + 1 - s, k - hi, period);
    }
    if hi < k { assert hi + 1 in m.pending; }
    if hi == k { NoOverrun(period); }
  }

  lemma NoOverrun(period: real)
    ensures Overrun(0, period) == 0.0
  {
  }

  lemma Ages(start: real, period: real, s: nat, k: nat)
    requires 1 <= s <= k
    ensures Tick(start, period, k) - Tick(start, period, s - 1) == Overrun(k + 1 - s, period)
    ensures Tick(start, period, k - 1) - Tick(start, period, s - 1) == Overrun(k - s, period)
  {
    TicksApart(start, period, s - 1, k);
    TicksApart(start, period, s - 1, k - 1);
  }

  // The wrapper and its monitor after k passed cycles.
  ghost predicate InStep(lagged: LaggedArm, verifier: LatencyVerifier, k: nat, start: real, period: real)
    reads lagged, verifier
  {
    && lagged.Valid() && |lagged.cmds| == k
    && LastTaken(lagged.log) == Taken(lagged.delay, lagged.legacy, k, start, period)
    && Window(verifier.pending, if k == 0 then 0 else Reached(lagged.delay, lagged.legacy, k - 1), k, start, period)
  }

  // One cycle.
  method Cycle(lagged: LaggedArm, verifier: LatencyVerifier, cmd: Command, k: nat, start: real, period: real)
    returns (ok: bool)
    requires InStep(lagged, verifier, k, start, period) && period >= 0.0 && verifier.bound >= 0.0
    modifies lagged, verifier
    ensures ok == (Overrun(Lag(lagged.delay, lagged.legacy, k), period) <= verifier.bound)
    ensures ok ==> InStep(lagged, verifier, k + 1, start, period)
  {
    hide Tick, Overrun, Passes, Stream, Waiting, LaggedArm.Valid, LastTaken;
    ghost var delay, legacy := lagged.delay, lagged.legacy;
    var now := Tick(start, period, k);
    LogLength(lagged);
    var snapshot := lagged.ReadState(now);
    ghost var log := lagged.log;
    var receipt := lagged.WriteCommand(cmd, true);
    StreamReached(delay, legacy, lagged.cmds, k);
    LastTakenMore(log, lagged.log[k]);
    var o := Observation(now, snapshot, receipt);
    WindowPasses(verifier.Now(), o, if k == 0 then 0 else Reached(delay, legacy, k - 1), Reached(delay, legacy, k), k, start,
                 period, verifier.bound);
    WindowGrows(Waiting(verifier.Now(), o), Reached(delay, legacy, k), k, start, period);
    var reported;
    ok, reported := verifier.Check(o);
  }

  lemma LogLength(lagged: LaggedArm)
    requires lagged.Valid()
    ensures |lagged.log| == |lagged.cmds|
    ensures lagged.legacy || lagged.delay >= 1
  {
  }

  lemma WindowGrows(waiting: map<nat, real>, hi: nat, k: nat, start: real, period: real)
    requires Window(waiting, hi, k, start, period) && hi <= k
    ensures Window(waiting[k + 1 := Tick(start, period, k)], hi, k + 1, start, period)
  {
  }

  lemma FreshInStep(lagged: LaggedArm, verifier: LatencyVerifier, start: real, period: real)
    requires lagged.Valid() && lagged.cmds == [] && verifier.Now() == FRESH
    ensures InStep(lagged, verifier, 0, start, period)
  {
  }

  lemma LagMonotone(delay: nat, legacy: bool, j: nat, k: nat)
    requires j <= k
    ensures Lag(delay, legacy, j) <= Lag(delay, legacy, k)
  {
  }

  /** A run of any submissions on an inner arm that takes every write: accepted exactly when the
      pipeline's lag, or the run's length if shorter, comes within the monitor's bound. */
  method MonitoredRun(delay: nat, legacy: bool, cmds: seq<Command>, start: real, period: real, nominal: real)
    returns (accepted: bool)
    requires legacy || delay >= 1
    requires period >= 0.0 && nominal >= 0.0
    ensures accepted <==> cmds == [] || Overrun(Lag(delay, legacy, |cmds| - 1), period) <= 2.0 * nominal + 0.000000001
  {
    hide Overrun, InStep, Lag;
    var lagged := new LaggedArm(delay, legacy);
    var verifier := new LatencyVerifier(nominal);
    FreshInStep(lagged, verifier, start, period);
    var k := 0;
    while k < |cmds|
      invariant 0 <= k <= |cmds| && fresh(lagged) && fresh(verifier)
      invariant InStep(lagged, verifier, k, start, period)
      invariant k == 0 || Overrun(Lag(delay, legacy, k - 1), period) <= Bound(nominal)
    {
      LagMonotone(delay, legacy, k, |cmds| - 1);
      OverrunMonotone(Lag(delay, legacy, k), Lag(delay, legacy, |cmds| - 1), period);
      var ok := Cycle(lagged, verifier, cmds[k], k, start, period);
      if !ok { return false; }
      k := k + 1;
    }
    return true;
  }

  // The record after k writes.
  ghost function Taken(delay: nat, legacy: bool, k: nat, start: real, period: real): Applied {
    if k == 0 then Applied(false, 0, 0.0) else Applied(true, Reached(delay, legacy, k), Tick(start, period, k - 1))
  }

  lemma StreamReached(delay: nat, legacy: bool, cmds: seq<Command>, k: nat)
    requires k < |cmds| && (legacy || delay >= 1)
    ensures k < |Stream(delay, legacy, cmds)| && Stream(delay, legacy, cmds)[k].seqNo == Reached(delay, legacy, k + 1)
  {
  }

  /** A preloaded pipeline's run is accepted exactly when delay periods, or the run's whole length,
      fit in two nominal periods and a nanosecond. */
  lemma PreloadedLag(delay: nat, n: nat)
    ensures n > 0 ==> Lag(delay, false, n - 1) == if n - 1 <= delay then n - 1 else delay
    ensures n > 0 ==> Lag(delay, true, n - 1) == if n <= 2 then 0 else 1
  {
  }
}
