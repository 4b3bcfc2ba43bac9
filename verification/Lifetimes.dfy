/** tools/timer_service.py: `mono_values`, `Lifetimes`, which follows every timer arming to its end,
    and `attribute`, which names the timer a deadline write is for. Stamps are whole nanoseconds. */
module Lifetimes {
  import opened Basics
  import opened Sorting

  datatype Clock = Monotonic | Boottime | Realtime | Tai | Unrecognised

  // An expiry of a timer, a cancellation, or an arming with its expiry time.
  datatype Event =
    | Expiry(ts: int, cpu: int, addr: int)
    | Cancel(ts: int, cpu: int, addr: int)
    | Start(ts: int, cpu: int, addr: int, expires: int, pinned: bool)

  // Of events at one time, expiries come first and armings last.
  function Rank(e: Event): int {
    match e
    case Expiry(_, _, _) => 0
    case Cancel(_, _, _) => 1
    case Start(_, _, _, _, _) => 2
  }

  predicate Earlier(a: Event, b: Event) {
    a.ts < b.ts || (a.ts == b.ts && Rank(a) <= Rank(b))
  }

  // Of two events at one time, an expiry comes before any other and an arming after any other.
  ghost predicate Precedes(a: Event, b: Event) {
    || a.ts < b.ts
    || (a.ts == b.ts && (a.Expiry? || b.Start? || (a.Cancel? && b.Cancel?)))
  }

  lemma EarlierPrecedes(a: Event, b: Event)
    ensures Earlier(a, b) <==> Precedes(a, b)
  {
  }

  const REALTIME_FROM := 1_000_000_000_000_000_000

  // The clocks an expiry may be on: the one recorded, or those its magnitude allows.
  function Candidates(clock: Option<Clock>, x: int): seq<Clock> {
    if clock.Some? then [clock.value] else if x > REALTIME_FROM then [Realtime, Tai] else [Monotonic, Boottime]
  }

  function Converted(c: Clock, x: int, offsets: map<Clock, int>): Option<int> {
    if c == Monotonic then Some(x)
    else if c != Unrecognised && c in offsets then Some(x - offsets[c])
    else None
  }

  function MonoValues(clock: Option<Clock>, x: int, offsets: map<Clock, int>): Option<seq<int>> {
    var names := Candidates(clock, x);
    var first := Converted(names[0], x, offsets);
    if |names| == 1 then if first.Some? then Some([first.value]) else None
    else
      var second := Converted(names[1], x, offsets);
      if first.Some? && second.Some? then Some([first.value, second.value]) else None
  }

  // A clock an expiry may be on: the one recorded, or by magnitude one of two.
  ghost predicate MayBeOn(clock: Option<Clock>, x: int, c: Clock) {
    match clock
    case Some(known) => c == known
    case None => if x > 1_000_000_000_000_000_000 then c == Realtime || c == Tai else c == Monotonic || c == Boottime
  }

  // What a clock reads at a monotonic time: the clock less CLOCK_MONOTONIC is its recorded offset.
  ghost function Reading(c: Clock, m: int, offsets: map<Clock, int>): Option<int> {
    match c
    case Monotonic => Some(m)
    case Unrecognised => None
    case _ => if c in offsets then Some(m + offsets[c]) else None
  }

  // Some clock an expiry may be on never reads it.
  ghost predicate Unreadable(clock: Option<Clock>, x: int, offsets: map<Clock, int>) {
    exists c :: MayBeOn(clock, x, c) && forall m :: Reading(c, m, offsets) != Some(x)
  }

  // A clock the expiry may be on reads it at a monotonic time.
  ghost predicate ReadAt(clock: Option<Clock>, x: int, offsets: map<Clock, int>, m: int) {
    exists c :: MayBeOn(clock, x, c) && Reading(c, m, offsets) == Some(x)
  }

  lemma ConvertedInverts(c: Clock, x: int, m: int, offsets: map<Clock, int>)
    ensures Converted(c, x, offsets) == Some(m) <==> Reading(c, m, offsets) == Some(x)
  {
  }

  lemma ConvertedNone(c: Clock, x: int, offsets: map<Clock, int>)
    ensures Converted(c, x, offsets).None? <==> forall m :: Reading(c, m, offsets) != Some(x)
  {
    var v := Converted(c, x, offsets);
    if v.Some? { ConvertedInverts(c, x, v.value, offsets); }
    forall m | v.None? ensures Reading(c, m, offsets) != Some(x) { ConvertedInverts(c, x, m, offsets); }
  }

  lemma CandidatesMayBe(clock: Option<Clock>, x: int)
    ensures forall c :: c in Candidates(clock, x) <==> MayBeOn(clock, x, c)
  {
  }

  /** No value is invented: an expiry converts exactly when every clock it may be on reads it at
      some monotonic time, and the values are those times, one a clock in order. */
  lemma ValuesComplete(clock: Option<Clock>, x: int, offsets: map<Clock, int>)
    ensures var names := Candidates(clock, x); var v := MonoValues(clock, x, offsets);
            && (v.None? <==> Unreadable(clock, x, offsets))
            && (v.Some? ==> |v.value| == |names| && forall k | 0 <= k < |names| :: Reading(names[k], v.value[k], offsets) == Some(x))
            && (v.Some? ==> forall m :: m in v.value <==> ReadAt(clock, x, offsets, m))
  {
    hide Converted, Reading, Candidates, MayBeOn, MonoValues, Unreadable;
    var names, v := Candidates(clock, x), MonoValues(clock, x, offsets);
    CandidatesMayBe(clock, x);
    assert v.None? <==> Unreadable(clock, x, offsets) by { NoneIsUnreadable(clock, x, offsets); }
    ConvertedInOrder(clock, x, offsets);
    forall c, m ensures Converted(c, x, offsets) == Some(m) <==> Reading(c, m, offsets) == Some(x) { ConvertedInverts(c, x, m, offsets); }
    forall m | v.Some? && ReadAt(clock, x, offsets, m) ensures m in v.value {
      var c :| MayBeOn(clock, x, c) && Reading(c, m, offsets) == Some(x);
      var k :| 0 <= k < |names| && names[k] == c;
      assert v.value[k] == m;
    }
    forall m | v.Some? && m in v.value ensures ReadAt(clock, x, offsets, m) {
      var k :| 0 <= k < |v.value| && v.value[k] == m;
      assert MayBeOn(clock, x, names[k]) && Reading(names[k], m, offsets) == Some(x);
    }
  }

  lemma NoneIsUnreadable(clock: Option<Clock>, x: int, offsets: map<Clock, int>)
    ensures MonoValues(clock, x, offsets).None? <==> Unreadable(clock, x, offsets)
  {
    hide Converted, Reading, Candidates, MayBeOn, MonoValues;
    var names, v := Candidates(clock, x), MonoValues(clock, x, offsets);
    CandidatesMayBe(clock, x);
    ConvertedInOrder(clock, x, offsets);
    forall c ensures Converted(c, x, offsets).None? <==> forall m :: Reading(c, m, offsets) != Some(x) { ConvertedNone(c, x, offsets); }
    if v.None? {
      var k :| 0 <= k < |names| && Converted(names[k], x, offsets).None?;
      assert MayBeOn(clock, x, names[k]);
    }
    if Unreadable(clock, x, offsets) {
      var c :| MayBeOn(clock, x, c) && forall m :: Reading(c, m, offsets) != Some(x);
      assert c in names;
    }
  }

  lemma ConvertedInOrder(clock: Option<Clock>, x: int, offsets: map<Clock, int>)
    ensures var names := Candidates(clock, x); var v := MonoValues(clock, x, offsets);
            && (v.None? <==> exists k :: 0 <= k < |names| && Converted(names[k], x, offsets).None?)
            && (v.Some? ==> |v.value| == |names| && forall k | 0 <= k < |names| :: Converted(names[k], x, offsets) == Some(v.value[k]))
  {
    var names := Candidates(clock, x);
    assert 0 < |names| && (Converted(names[0], x, offsets).None? || Converted(names[0], x, offsets).Some?);
    assert |names| == 2 ==> Converted(names[1], x, offsets).None? || Converted(names[1], x, offsets).Some?;
  }

  // An arming followed to its end, with the CPU it is queued on where the trace shows one.
  datatype Gen = Gen(start: Event, end: Option<Event>, cpu: Option<int>, x: Option<seq<int>>)

  function Residency(start: Event, end: Option<Event>): Option<int>
    requires start.Start?
  {
    if end.Some? && end.value.Expiry? then Some(end.value.cpu) else if start.pinned then Some(start.cpu) else None
  }

  // The clocks recorded, and the offsets of the others from CLOCK_MONOTONIC.
  datatype Clocks = Clocks(of: map<int, Clock>, offsets: map<Clock, int>) {
    function Values(start: Event): Option<seq<int>>
      requires start.Start?
    {
      MonoValues(if start.addr in of then Some(of[start.addr]) else None, start.expires, offsets)
    }

    // The clock recorded for a timer.
    ghost function ClockOf(addr: int): Option<Clock> {
      if addr in of then Some(of[addr]) else None
    }
  }

  function GenAt(events: seq<Event>, i: nat, clocks: Clocks): Gen
    requires i < |events| && events[i].Start?
  {
    var end := if i + 1 < |events| then Some(events[i + 1]) else None;
    Gen(events[i], end, Residency(events[i], end), clocks.Values(events[i]))
  }

  function GensTo(events: seq<Event>, n: nat, clocks: Clocks): seq<Gen>
    requires n <= |events|
  {
    if n == 0 then []
    else GensTo(events, n - 1, clocks) + if events[n - 1].Start? then [GenAt(events, n - 1, clocks)] else []
  }

  // One timer's events in order.
  ghost predicate InOrder(events: seq<Event>, addr: int) {
    SortedBy(Earlier, events) && forall k | 0 <= k < |events| :: events[k].addr == addr
  }

  // One timer's armings.
  method Follow(events: seq<Event>, clocks: Clocks) returns (gens: seq<Gen>)
    ensures gens == GensTo(events, |events|, clocks)
  {
    gens := [];
    for i := 0 to |events|
      invariant gens == GensTo(events, i, clocks)
    {
      if events[i].Start? {
        var end := if i + 1 < |events| then Some(events[i + 1]) else None;
        gens := gens + [Gen(events[i], end, Residency(events[i], end), clocks.Values(events[i]))];
      }
    }
  }

  // Whether an arming is pending at a time.
  predicate PendingAt(g: Gen, t: int) {
    g.start.ts <= t && (g.end.Some? ==> t < g.end.value.ts)
  }

  // Two armings of one timer are never pending at once.
  ghost predicate Apart(g: Gen, h: Gen) {
    g.start.addr == h.start.addr ==> forall t :: !(PendingAt(g, t) && PendingAt(h, t))
  }

  // The only event of its timer at its time.
  ghost predicate Alone(e: Event, all: seq<Event>) {
    multiset(all)[e] == 1 && forall f | f in all && f.addr == e.addr && f.ts == e.ts :: f == e
  }

  // An arming ends at its timer's next event; its residency is what that and its flags show, and
  // its values are its clocks' readings.
  ghost predicate EndsNext(g: Gen, all: seq<Event>, clocks: Clocks) {
    && g.start.Start? && g.start in all && g.cpu == Residency(g.start, g.end) && g.x == clocks.Values(g.start)
    && (g.end.Some? ==> g.end.value in all && g.end.value.addr == g.start.addr && Precedes(g.start, g.end.value))
    && (g.end.Some? && Alone(g.start, all) ==> g.start.ts < g.end.value.ts)
    && forall e | e in all && e.addr == g.start.addr && g.start.ts < e.ts :: g.end.Some? && Precedes(g.end.value, e)
  }

  lemma Preorder()
    ensures TotalPreorder(Earlier)
  {
  }

  lemma {:induction false} GensFrom(events: seq<Event>, n: nat, clocks: Clocks, g: Gen) returns (i: nat)
    requires n <= |events| && g in GensTo(events, n, clocks)
    ensures i < n && events[i].Start? && g == GenAt(events, i, clocks)
  {
    if events[n - 1].Start? && g == GenAt(events, n - 1, clocks) { i := n - 1; } else { i := GensFrom(events, n - 1, clocks, g); }
  }

  // No more of these events than there are in all.
  ghost predicate Among(events: seq<Event>, all: seq<Event>, addr: int) {
    && (forall e :: e in events <==> e in all && e.addr == addr)
    && forall e :: multiset(events)[e] <= multiset(all)[e]
  }

  lemma Twice(events: seq<Event>, i: nat)
    requires i + 1 < |events| && events[i] == events[i + 1]
    ensures multiset(events)[events[i]] >= 2
  {
    assert events == events[..i] + ([events[i]] + ([events[i + 1]] + events[i + 2..]));
  }

  lemma {:induction false} GensEndNext(events: seq<Event>, addr: int, clocks: Clocks, g: Gen, all: seq<Event>)
    requires InOrder(events, addr) && g in GensTo(events, |events|, clocks) && Among(events, all, addr)
    ensures EndsNext(g, all, clocks) && g.start.addr == addr
  {
    var i := GensFrom(events, |events|, clocks, g);
    assert events[i] in events;
    if i + 1 < |events| {
      assert events[i + 1] in events && Earlier(events[i], events[i + 1]);
      if events[i] == events[i + 1] { Twice(events, i); }
    }
    forall e | e in all && e.addr == g.start.addr && g.start.ts < e.ts ensures g.end.Some? && Precedes(g.end.value, e) {
      assert e in events;
      var j :| 0 <= j < |events| && events[j] == e;
      assert j < i ==> Earlier(events[j], events[i]);
      assert i + 1 < j ==> Earlier(events[i + 1], events[j]);
    }
  }

  ghost predicate Pairwise(gens: seq<Gen>) {
    forall i, j | 0 <= i < j < |gens| :: Apart(gens[i], gens[j])
  }

  lemma {:induction false} GensApart(events: seq<Event>, addr: int, n: nat, clocks: Clocks)
    requires InOrder(events, addr) && n <= |events|
    ensures Pairwise(GensTo(events, n, clocks))
  {
    if n > 0 {
      GensApart(events, addr, n - 1, clocks);
      if events[n - 1].Start? {
        var init, last := GensTo(events, n - 1, clocks), GenAt(events, n - 1, clocks);
        forall i | 0 <= i < |init| ensures Apart(init[i], last) {
          var k := GensFrom(events, n - 1, clocks, init[i]);
          assert k + 1 < n - 1 ==> Earlier(events[k + 1], events[n - 1]);
        }
      }
    }
  }

  // A timer's events, in the order they came.
  function Of(events: seq<Event>, addr: int): seq<Event> {
    if events == [] then []
    else
      var last := events[|events| - 1];
      Of(events[..|events| - 1], addr) + if last.addr == addr then [last] else []
  }

  lemma {:induction false} OfMembers(events: seq<Event>, addr: int)
    ensures forall e :: e in Of(events, addr) <==> e in events && e.addr == addr
  {
    if events != [] {
      var init, last := events[..|events| - 1], events[|events| - 1];
      OfMembers(init, addr);
      assert forall e :: e in events <==> e in init || e == last;
    }
  }

  lemma {:induction false} OfCount(events: seq<Event>, addr: int, e: Event)
    ensures multiset(Of(events, addr))[e] == if e.addr == addr then multiset(events)[e] else 0
  {
    if events != [] {
      var init, last := events[..|events| - 1], events[|events| - 1];
      assert events == init + [last];
      OfCount(init, addr, e);
    }
  }

  lemma {:induction false} NoneOf(events: seq<Event>, addr: int)
    requires forall e | e in events :: e.addr != addr
    ensures Of(events, addr) == []
  {
    if events != [] { NoneOf(events[..|events| - 1], addr); }
  }

  lemma OfMore(events: seq<Event>, e: Event, addr: int)
    ensures Of(events + [e], addr) == Of(events, addr) + if e.addr == addr then [e] else []
  {
    assert (events + [e])[..|events|] == events;
  }

  // The events by timer, and the timers in the order they first appear.
  method Group(events: seq<Event>) returns (order: seq<int>, groups: map<int, seq<Event>>)
    ensures forall a :: a in order <==> exists e :: e in events && e.addr == a
    ensures forall i, j | 0 <= i < j < |order| :: order[i] != order[j]
    ensures forall a :: a in groups <==> a in order
    ensures forall a | a in groups :: groups[a] == Of(events, a)
  {
    order, groups := [], map[];
    for k := 0 to |events|
      invariant forall a :: a in order <==> exists e :: e in events[..k] && e.addr == a
      invariant forall i, j | 0 <= i < j < |order| :: order[i] != order[j]
      invariant forall a :: a in groups <==> a in order
      invariant forall a | a in groups :: groups[a] == Of(events[..k], a)
    {
      var e := events[k];
      assert events[..k + 1] == events[..k] + [e];
      forall a ensures Of(events[..k + 1], a) == Of(events[..k], a) + if e.addr == a then [e] else [] { OfMore(events[..k], e, a); }
      if e.addr !in groups {
        NoneOf(events[..k], e.addr);
        order, groups := order + [e.addr], groups[e.addr := []];
      }
      groups := groups[e.addr := groups[e.addr] + [e]];
    }
    assert events[..|events|] == events;
  }

  predicate StartsBefore(g: Gen, h: Gen) {
    g.start.ts <= h.start.ts
  }

  lemma {:induction false} InsertPairwise(x: Gen, xs: seq<Gen>)
    requires Pairwise(xs) && forall y | y in xs :: Apart(x, y)
    ensures Pairwise(Insert(x, xs, StartsBefore))
  {
    if xs != [] && !StartsBefore(x, xs[0]) {
      var rest := Insert(x, xs[1..], StartsBefore);
      InsertPairwise(x, xs[1..]);
      forall j | 0 <= j < |rest| ensures Apart(xs[0], rest[j]) {
        assert rest[j] in multiset(rest);
        if rest[j] != x {
          assert rest[j] in xs[1..];
          var k :| 0 <= k < |xs[1..]| && xs[1..][k] == rest[j];
          assert xs[1..][k] == xs[k + 1];
        } else {
          assert Apart(x, xs[0]);
        }
      }
    }
  }

  lemma {:induction false} SortPairwise(xs: seq<Gen>)
    requires Pairwise(xs)
    ensures Pairwise(Sort(xs, StartsBefore))
  {
    if xs != [] {
      SortPairwise(xs[1..]);
      SortMembers(xs[1..], StartsBefore);
      forall y | y in xs[1..] ensures Apart(xs[0], y) {
        var k :| 0 <= k < |xs[1..]| && xs[1..][k] == y;
        assert xs[1..][k] == xs[k + 1];
      }
      InsertPairwise(xs[0], Sort(xs[1..], StartsBefore));
    }
  }

  ghost predicate HasStart(gens: seq<Gen>, e: Event) {
    exists g :: g in gens && g.start == e
  }

  // How many of the armings begin with this event.
  function StartCount(gens: seq<Gen>, e: Event): nat {
    if gens == [] then 0 else (if gens[0].start == e then 1 else 0) + StartCount(gens[1..], e)
  }

  lemma {:induction false} StartsAdd(gens: seq<Gen>, more: seq<Gen>, e: Event)
    ensures StartCount(gens + more, e) == StartCount(gens, e) + StartCount(more, e)
  {
    if gens == [] {
      assert gens + more == more;
    } else {
      assert (gens + more)[1..] == gens[1..] + more;
      StartsAdd(gens[1..], more, e);
    }
  }

  lemma {:induction false} StartsInserted(x: Gen, xs: seq<Gen>, e: Event)
    ensures StartCount(Insert(x, xs, StartsBefore), e) == StartCount([x] + xs, e)
  {
    if xs != [] && !StartsBefore(x, xs[0]) {
      StartsInserted(x, xs[1..], e);
      assert ([x] + xs)[1..] == xs && ([x] + xs[1..])[1..] == xs[1..];
    }
  }

  lemma {:induction false} StartsSorted(gens: seq<Gen>, e: Event)
    ensures StartCount(Sort(gens, StartsBefore), e) == StartCount(gens, e)
  {
    if gens != [] {
      StartsSorted(gens[1..], e);
      StartsInserted(gens[0], Sort(gens[1..], StartsBefore), e);
      assert ([gens[0]] + Sort(gens[1..], StartsBefore))[1..] == Sort(gens[1..], StartsBefore);
    }
  }

  lemma OneStart(g: Gen, e: Event)
    ensures StartCount([g], e) == (if g.start == e then 1 else 0) && StartCount([], e) == 0
  {
    assert [g][1..] == [];
  }

  lemma OneEvent(events: seq<Event>, n: nat, e: Event)
    requires 0 < n <= |events|
    ensures multiset(events[..n])[e] == multiset(events[..n - 1])[e] + if events[n - 1] == e then 1 else 0
  {
    assert events[..n] == events[..n - 1] + [events[n - 1]];
  }

  // One timer's armings are its start events, each as often as it came.
  lemma {:induction false} StartsOfTimer(events: seq<Event>, n: nat, clocks: Clocks, e: Event)
    requires n <= |events|
    ensures StartCount(GensTo(events, n, clocks), e) == if e.Start? then multiset(events[..n])[e] else 0
  {
    hide StartCount;
    if n == 0 {
      assert StartCount([], e) == 0 by { NoStarts(e); }
    } else {
      var last := events[n - 1];
      StartsOfTimer(events, n - 1, clocks, e);
      OneEvent(events, n, e);
      if last.Start? {
        var g := GenAt(events, n - 1, clocks);
        StartsAdd(GensTo(events, n - 1, clocks), [g], e);
        OneStart(g, e);
      } else {
        assert GensTo(events, n, clocks) == GensTo(events, n - 1, clocks);
      }
    }
  }

  lemma NoStarts(e: Event)
    ensures StartCount([], e) == 0
  {
  }

  lemma StartsOfSorted(all: seq<Event>, addr: int, clocks: Clocks, e: Event)
    ensures var sorted := Sort(Of(all, addr), Earlier);
            StartCount(GensTo(sorted, |sorted|, clocks), e) == if e.Start? && e.addr == addr then multiset(all)[e] else 0
  {
    var sorted := Sort(Of(all, addr), Earlier);
    StartsOfTimer(sorted, |sorted|, clocks, e);
    assert sorted[..|sorted|] == sorted;
    OfCount(all, addr, e);
  }

  // Each start event of these timers begins as many armings as it came times.
  ghost predicate Counted(gens: seq<Gen>, all: seq<Event>, timers: seq<int>) {
    forall e :: StartCount(gens, e) == if e.Start? && e.addr in timers then multiset(all)[e] else 0
  }

  lemma CountedMore(gens: seq<Gen>, all: seq<Event>, timers: seq<int>, addr: int, clocks: Clocks)
    requires Counted(gens, all, timers) && addr !in timers
    ensures var sorted := Sort(Of(all, addr), Earlier);
            Counted(gens + GensTo(sorted, |sorted|, clocks), all, timers + [addr])
  {
    var sorted := Sort(Of(all, addr), Earlier);
    forall e
      ensures StartCount(gens + GensTo(sorted, |sorted|, clocks), e)
           == if e.Start? && e.addr in timers + [addr] then multiset(all)[e] else 0
    {
      StartsAdd(gens, GensTo(sorted, |sorted|, clocks), e);
      StartsOfSorted(all, addr, clocks, e);
    }
  }

  // The armings of the timers handled so far.
  ghost predicate Followed(gens: seq<Gen>, all: seq<Event>, timers: seq<int>, clocks: Clocks) {
    && Pairwise(gens)
    && (forall g | g in gens :: EndsNext(g, all, clocks) && g.start.addr in timers)
    && Counted(gens, all, timers)
  }

  // One timer's events sorted are its timeline.
  lemma SortedInOrder(all: seq<Event>, addr: int)
    ensures var sorted := Sort(Of(all, addr), Earlier);
            InOrder(sorted, addr) && Among(sorted, all, addr)
  {
    Preorder();
    SortSorted(Of(all, addr), Earlier);
    SortMembers(Of(all, addr), Earlier);
    OfMembers(all, addr);
    var sorted := Sort(Of(all, addr), Earlier);
    forall k | 0 <= k < |sorted| ensures sorted[k].addr == addr { assert sorted[k] in sorted; }
    forall e ensures multiset(sorted)[e] <= multiset(all)[e] { OfCount(all, addr, e); }
  }

  lemma {:induction false} FollowedMore(gens: seq<Gen>, all: seq<Event>, timers: seq<int>, addr: int, clocks: Clocks)
    requires Followed(gens, all, timers, clocks) && addr !in timers
    ensures var sorted := Sort(Of(all, addr), Earlier);
            Followed(gens + GensTo(sorted, |sorted|, clocks), all, timers + [addr], clocks)
  {
    hide EndsNext, Apart, Counted, Among;
    var sorted := Sort(Of(all, addr), Earlier);
    var more := GensTo(sorted, |sorted|, clocks);
    SortedInOrder(all, addr);
    GensApart(sorted, addr, |sorted|, clocks);
    CountedMore(gens, all, timers, addr, clocks);
    forall g | g in more ensures EndsNext(g, all, clocks) && g.start.addr == addr { GensEndNext(sorted, addr, clocks, g, all); }
    forall i, j | 0 <= i < |gens| && 0 <= j < |more| ensures Apart(gens[i], more[j]) {
      assert gens[i] in gens && more[j] in more;
      OthersApart(gens[i], more[j]);
    }
  }

  lemma OthersApart(g: Gen, h: Gen)
    requires g.start.addr != h.start.addr
    ensures Apart(g, h)
  {
  }

  lemma {:induction false} CountHasStart(gens: seq<Gen>, e: Event)
    ensures StartCount(gens, e) > 0 <==> HasStart(gens, e)
  {
    if gens != [] {
      CountHasStart(gens[1..], e);
      assert gens == [gens[0]] + gens[1..];
      if gens[0].start == e { assert gens[0] in gens; }
      if HasStart(gens, e) {
        var g :| g in gens && g.start == e;
        assert g == gens[0] || g in gens[1..];
      }
      if HasStart(gens[1..], e) {
        var g :| g in gens[1..] && g.start == e;
        assert g in gens;
      }
    }
  }

  // Every start event begins as many armings as it came times, and nothing else begins one.
  ghost predicate EachOnce(gens: seq<Gen>, all: seq<Event>) {
    forall e :: StartCount(gens, e) == if e.Start? then multiset(all)[e] else 0
  }

  /** Every arming of every timer, each once, in order of arming, each to its timer's next event
      and with its clocks' readings; armings of one timer are never pending together. */
  method Lives(expiries: seq<Event>, cancels: seq<Event>, starts: seq<Event>, clocks: Clocks) returns (gens: seq<Gen>)
    ensures SortedBy(StartsBefore, gens) && Pairwise(gens)
    ensures var all := expiries + cancels + starts;
            (forall g | g in gens :: EndsNext(g, all, clocks)) && EachOnce(gens, all)
  {
    hide Pairwise, EndsNext, Counted, EachOnce, SortedBy, GensTo;
    var all := expiries + cancels + starts;
    var order, groups := Group(all);
    gens := [];
    assert Followed(gens, all, order[..0], clocks) by {
      assert Pairwise([]) by { NonePairwise(); }
      assert Counted([], all, []) by { NoneCounted(all); }
      assert order[..0] == [];
    }
    for k := 0 to |order|
      invariant Followed(gens, all, order[..k], clocks)
    {
      assert order[k] in order;
      var sorted := Sort(groups[order[k]], Earlier);
      var more := Follow(sorted, clocks);
      assert order[k] !in order[..k];
      FollowedMore(gens, all, order[..k], order[k], clocks);
      assert order[..k] + [order[k]] == order[..k + 1];
      gens := gens + more;
    }
    assert order[..|order|] == order;
    AllCounted(gens, all, order);
    SortMembers(gens, StartsBefore);
    SortPairwise(gens);
    SortSorted(gens, StartsBefore);
    OnceSorted(gens, all);
    gens := Sort(gens, StartsBefore);
  }

  lemma OnceSorted(gens: seq<Gen>, all: seq<Event>)
    requires EachOnce(gens, all)
    ensures EachOnce(Sort(gens, StartsBefore), all)
  {
    forall e ensures StartCount(Sort(gens, StartsBefore), e) == StartCount(gens, e) { StartsSorted(gens, e); }
  }

  lemma NonePairwise()
    ensures Pairwise([])
  {
  }

  lemma NoneCounted(all: seq<Event>)
    ensures Counted([], all, [])
  {
  }

  // With every timer handled, every start event is counted.
  lemma AllCounted(gens: seq<Gen>, all: seq<Event>, timers: seq<int>)
    requires Counted(gens, all, timers) && forall e | e in all :: e.addr in timers
    ensures EachOnce(gens, all)
  {
    forall e ensures StartCount(gens, e) == if e.Start? then multiset(all)[e] else 0 {
      assert e !in all ==> multiset(all)[e] == 0;
    }
  }
}

module Attribution {
  import opened Basics
  import opened Sorting
  import opened Lifetimes

  // A mark of the sweep: an arming's start (kind 0) or end (kind 1), and which.
  datatype Mark = Mark(ts: int, kind: int, gen: nat)

  predicate MarkBefore(a: Mark, b: Mark) {
    a.ts < b.ts || (a.ts == b.ts && (a.kind < b.kind || (a.kind == b.kind && a.gen <= b.gen)))
  }

  lemma MarksTotal()
    ensures TotalPreorder(MarkBefore)
  {
  }

  datatype Write = Write(ts: int, value: nat, failed: bool)

  datatype Verdict =
    | FailedWrite
    | Disarmed
    | OutsideAnchors
    | UnknownResidency(count: nat)
    | Unconverted(count: nat)
    | Named(gen: nat)
    | NoTimer
    | Several(count: nat)

  // What the attribution is made of: the conversion, its uncertainty and the real-time CPU.
  datatype Setting = Setting(mono: nat -> Option<real>, u: real, rt: int)

  predicate Near(values: seq<int>, d: real, u: real) {
    exists k :: 0 <= k < |values| && Abs(values[k] as real - d) <= u
  }

  // How a pending arming bears on a deadline.
  datatype Bearing = Elsewhere | CannotConvert | Here | Somewhere | OtherTime

  function BearingOf(g: Gen, d: real, s: Setting): Bearing {
    if g.cpu.Some? && g.cpu.value != s.rt then Elsewhere
    else if g.x.None? then CannotConvert
    else if !Near(g.x.value, d, s.u) then OtherTime
    else if g.cpu.Some? then Here
    else Somewhere
  }

  // The armings pending at a time, by definition.
  function PendingSet(gens: seq<Gen>, t: int): set<nat> {
    set i | 0 <= i < |gens| && PendingAt(gens[i], t)
  }

  function Bearers(gens: seq<Gen>, pending: set<nat>, d: real, s: Setting, b: Bearing): set<nat>
    requires forall i | i in pending :: i < |gens|
  {
    set i | i in pending && BearingOf(gens[i], d, s) == b
  }

  // The verdict on a write, given the armings pending at it.
  ghost predicate Judged(gens: seq<Gen>, pending: set<nat>, w: Write, s: Setting, v: Verdict)
    requires forall i | i in pending :: i < |gens|
  {
    if w.failed then v == FailedWrite
    else if w.value == 0 then v == Disarmed
    else if s.mono(w.value).None? then v == OutsideAnchors
    else
      var d := s.mono(w.value).value;
      var unknown, unconverted, here := Bearers(gens, pending, d, s, Somewhere), Bearers(gens, pending, d, s, CannotConvert), Bearers(gens, pending, d, s, Here);
      if unknown != {} then v == UnknownResidency(|unknown|)
      else if unconverted != {} then v == Unconverted(|unconverted|)
      else if |here| == 1 then v.Named? && v.gen in here
      else if here == {} then v == NoTimer
      else v == Several(|here|)
  }

  ghost predicate WellEnded(gens: seq<Gen>) {
    forall i | 0 <= i < |gens| && gens[i].end.Some? :: gens[i].start.ts <= gens[i].end.value.ts
  }

  // All the marks, unsorted.
  function StartMarks(gens: seq<Gen>): seq<Mark> {
    seq(|gens|, i requires 0 <= i < |gens| => Mark(gens[i].start.ts, 0, i))
  }

  function EndMarks(gens: seq<Gen>, n: nat): seq<Mark>
    requires n <= |gens|
  {
    if n == 0 then []
    else EndMarks(gens, n - 1) + if gens[n - 1].end.Some? then [Mark(gens[n - 1].end.value.ts, 1, n - 1)] else []
  }

  ghost predicate IsMark(gens: seq<Gen>, m: Mark) {
    && m.gen < |gens|
    && ((m.kind == 0 && m.ts == gens[m.gen].start.ts)
        || (m.kind == 1 && gens[m.gen].end.Some? && m.ts == gens[m.gen].end.value.ts))
  }

  lemma {:induction false} EndMarkMembers(gens: seq<Gen>, n: nat)
    requires n <= |gens|
    ensures forall m :: m in EndMarks(gens, n) <==> m.gen < n && m.kind == 1 && IsMark(gens, m)
  {
    if n > 0 { EndMarkMembers(gens, n - 1); }
  }

  function Marks(gens: seq<Gen>): seq<Mark> {
    Sort(StartMarks(gens) + EndMarks(gens, |gens|), MarkBefore)
  }

  lemma MarksAre(gens: seq<Gen>)
    ensures SortedBy(MarkBefore, Marks(gens)) && forall m :: m in Marks(gens) <==> IsMark(gens, m)
  {
    MarksTotal();
    var all := StartMarks(gens) + EndMarks(gens, |gens|);
    SortSorted(all, MarkBefore);
    SortMembers(all, MarkBefore);
    EndMarkMembers(gens, |gens|);
    forall m | IsMark(gens, m) && m.kind == 0 ensures m in all { assert StartMarks(gens)[m.gen] == m; }
  }

  // The set the sweep keeps after its first k marks.
  ghost predicate SweptTo(marks: seq<Mark>, k: nat, pending: set<nat>)
    requires k <= |marks|
  {
    forall i :: i in pending <==> SeenStart(marks, k, i) && !SeenEnd(marks, k, i)
  }

  ghost predicate SeenStart(marks: seq<Mark>, k: nat, i: nat)
    requires k <= |marks|
  {
    exists j :: 0 <= j < k && marks[j].kind == 0 && marks[j].gen == i
  }

  ghost predicate SeenEnd(marks: seq<Mark>, k: nat, i: nat)
    requires k <= |marks|
  {
    exists j :: 0 <= j < k && marks[j].kind == 1 && marks[j].gen == i
  }

  // Once every mark up to a time is taken, the set kept is the one pending then, by definition.
  lemma {:induction false} SweepIsNaive(gens: seq<Gen>, k: nat, pending: set<nat>, t: int)
    requires WellEnded(gens) && k <= |Marks(gens)| && SweptTo(Marks(gens), k, pending)
    requires (forall j | 0 <= j < k :: Marks(gens)[j].ts <= t) && forall j | k <= j < |Marks(gens)| :: t < Marks(gens)[j].ts
    ensures pending == PendingSet(gens, t)
  {
    hide Marks;
    var marks := Marks(gens);
    MarksAre(gens);
    forall i: nat ensures i in pending <==> i in PendingSet(gens, t) {
      if i < |gens| {
        MarkTaken(gens, k, t, Mark(gens[i].start.ts, 0, i));
        if gens[i].end.Some? { MarkTaken(gens, k, t, Mark(gens[i].end.value.ts, 1, i)); }
      }
      forall j | 0 <= j < k && marks[j].gen == i ensures i < |gens| && IsMark(gens, marks[j]) { assert marks[j] in marks; }
    }
  }

  lemma MarkTaken(gens: seq<Gen>, k: nat, t: int, m: Mark)
    requires IsMark(gens, m) && k <= |Marks(gens)|
    requires (forall j | 0 <= j < k :: Marks(gens)[j].ts <= t) && forall j | k <= j < |Marks(gens)| :: t < Marks(gens)[j].ts
    ensures m.ts <= t <==> exists j :: 0 <= j < k && Marks(gens)[j] == m
  {
    hide Marks;
    MarksAre(gens);
    assert m in Marks(gens);
    var j :| 0 <= j < |Marks(gens)| && Marks(gens)[j] == m;
    assert j < k ==> m.ts <= t;
  }

  // One more mark taken keeps the sweep's meaning: a start never follows its own end.
  lemma {:induction false} TakeMark(gens: seq<Gen>, k: nat, pending: set<nat>)
    requires WellEnded(gens) && k < |Marks(gens)| && SweptTo(Marks(gens), k, pending)
    ensures var m := Marks(gens)[k];
            SweptTo(Marks(gens), k + 1, if m.kind == 0 then pending + {m.gen} else pending - {m.gen})
  {
    hide Marks;
    MarksAre(gens);
    var marks, m := Marks(gens), Marks(gens)[k];
    assert m in marks;
    forall i: nat ensures SeenStart(marks, k + 1, i) <==> SeenStart(marks, k, i) || (m.kind == 0 && m.gen == i) { }
    forall i: nat ensures SeenEnd(marks, k + 1, i) <==> SeenEnd(marks, k, i) || (m.kind == 1 && m.gen == i) { }
    forall j | 0 <= j < k && m.kind == 0 && marks[j].kind == 1 ensures marks[j].gen != m.gen {
      assert marks[j] in marks && MarkBefore(marks[j], marks[k]);
    }
  }

  // The armings pending, sorted by how they bear on a deadline.
  method Weigh(gens: seq<Gen>, pending: set<nat>, d: real, s: Setting)
    returns (here: set<nat>, unknown: nat, unconverted: nat)
    requires forall i | i in pending :: i < |gens|
    ensures here == Bearers(gens, pending, d, s, Here) && unknown == |Bearers(gens, pending, d, s, Somewhere)|
    ensures unconverted == |Bearers(gens, pending, d, s, CannotConvert)|
  {
    hide BearingOf, Bearers;
    here, unknown, unconverted := {}, 0, 0;
    NoBearers(gens, d, s, Here);
    NoBearers(gens, d, s, Somewhere);
    NoBearers(gens, d, s, CannotConvert);
    var left, seen: set<nat> := pending, {};
    while left != {}
      invariant left !! seen && left + seen == pending
      invariant here == Bearers(gens, seen, d, s, Here) && unknown == |Bearers(gens, seen, d, s, Somewhere)|
      invariant unconverted == |Bearers(gens, seen, d, s, CannotConvert)|
      decreases |left|
    {
      var i :| i in left;
      var b := BearingOf(gens[i], d, s);
      BearersMore(gens, seen, i, d, s, Here);
      BearersMore(gens, seen, i, d, s, Somewhere);
      BearersMore(gens, seen, i, d, s, CannotConvert);
      left, seen := left - {i}, seen + {i};
      if b == CannotConvert {
        unconverted := unconverted + 1;
      } else if b == Here {
        here := here + {i};
      } else if b == Somewhere {
        unknown := unknown + 1;
      }
    }
    assert seen == pending;
  }

  lemma BearersMore(gens: seq<Gen>, seen: set<nat>, i: nat, d: real, s: Setting, b: Bearing)
    requires i < |gens| && i !in seen && forall j | j in seen :: j < |gens|
    ensures Bearers(gens, seen + {i}, d, s, b)
         == if BearingOf(gens[i], d, s) == b then Bearers(gens, seen, d, s, b) + {i} else Bearers(gens, seen, d, s, b)
    ensures |Bearers(gens, seen + {i}, d, s, b)| == |Bearers(gens, seen, d, s, b)| + if BearingOf(gens[i], d, s) == b then 1 else 0
  {
    hide BearingOf;
    assert i !in Bearers(gens, seen, d, s, b);
  }

  lemma NoBearers(gens: seq<Gen>, d: real, s: Setting, b: Bearing)
    ensures Bearers(gens, {}, d, s, b) == {}
  {
  }

  // One write's verdict.
  method Judge(gens: seq<Gen>, pending: set<nat>, w: Write, s: Setting) returns (v: Verdict)
    requires forall i | i in pending :: i < |gens|
    ensures Judged(gens, pending, w, s, v)
  {
    hide Bearers;
    if w.failed { return FailedWrite; }
    if w.value == 0 { return Disarmed; }
    if s.mono(w.value).None? { return OutsideAnchors; }
    var here, unknown, unconverted := Weigh(gens, pending, s.mono(w.value).value, s);
    if unknown > 0 { return UnknownResidency(unknown); }
    if unconverted > 0 { return Unconverted(unconverted); }
    if |here| == 1 {
      var i :| i in here;
      return Named(i);
    }
    if here == {} { return NoTimer; }
    return Several(|here|);
  }

  /** Each write is judged by exactly the armings begun by its time and not yet ended: the sweep
      through the marks keeps the set its definition gives. */
  method Attribute(gens: seq<Gen>, writes: seq<Write>, s: Setting) returns (out: seq<Verdict>)
    requires WellEnded(gens) && forall i, j | 0 <= i < j < |writes| :: writes[i].ts <= writes[j].ts
    ensures |out| == |writes|
    ensures forall k | 0 <= k < |out| :: Judged(gens, PendingSet(gens, writes[k].ts), writes[k], s, out[k])
  {
    hide Judged, Marks, SweptTo;
    var marks := Marks(gens);
    MarksAre(gens);
    var pending: set<nat>, k: nat := {}, 0;
    assert SweptTo(marks, 0, {}) by { NothingSwept(marks); }
    out := [];
    for n := 0 to |writes|
      invariant |out| == n && k <= |marks| && SweptTo(marks, k, pending)
      invariant forall j | 0 <= j < k :: n > 0 && marks[j].ts <= writes[n - 1].ts
      invariant forall j | 0 <= j < n :: Judged(gens, PendingSet(gens, writes[j].ts), writes[j], s, out[j])
    {
      var t := writes[n].ts;
      while k < |marks| && marks[k].ts <= t
        invariant k <= |marks| && SweptTo(marks, k, pending)
        invariant forall j | 0 <= j < k :: marks[j].ts <= t
      {
        TakeMark(gens, k, pending);
        pending := if marks[k].kind == 0 then pending + {marks[k].gen} else pending - {marks[k].gen};
        k := k + 1;
      }
      assert forall j | k <= j < |marks| :: k < j ==> MarkBefore(marks[k], marks[j]);
      SweepIsNaive(gens, k, pending, t);
      var v := Judge(gens, pending, writes[n], s);
      out := out + [v];
    }
  }

  lemma NothingSwept(marks: seq<Mark>)
    ensures SweptTo(marks, 0, {})
  {
  }

  /** A timer named is the only pending one resident on the real-time CPU at that expiry; no
      matching one is of unknown residency, and none that may be there is unconverted. */
  lemma NamedIsTheOne(gens: seq<Gen>, w: Write, s: Setting, i: nat)
    requires Judged(gens, PendingSet(gens, w.ts), w, s, Named(i))
    ensures i < |gens| && PendingAt(gens[i], w.ts) && gens[i].cpu == Some(s.rt)
    ensures s.mono(w.value).Some? && gens[i].x.Some? && Near(gens[i].x.value, s.mono(w.value).value, s.u)
    ensures forall j: nat | j < |gens| && PendingAt(gens[j], w.ts) && j != i ::
              (gens[j].cpu.Some? && gens[j].cpu.value != s.rt)
              || (gens[j].x.Some? && !Near(gens[j].x.value, s.mono(w.value).value, s.u))
  {
    hide Near;
    var pending, d := PendingSet(gens, w.ts), s.mono(w.value).value;
    var here := Bearers(gens, pending, d, s, Here);
    forall j: nat | j < |gens| && PendingAt(gens[j], w.ts) && j != i
      ensures BearingOf(gens[j], d, s) == Elsewhere || BearingOf(gens[j], d, s) == OtherTime
    {
      assert j in pending;
      OnlyOne(here, i, j);
      assert j !in Bearers(gens, pending, d, s, Somewhere) && j !in Bearers(gens, pending, d, s, CannotConvert);
    }
  }

  lemma OnlyOne(a: set<nat>, i: nat, j: nat)
    requires |a| == 1 && i in a && i != j
    ensures j !in a
  {
    assert |a - {i}| == 0;
  }

  /** The armings `Lives` follows end no earlier than they begin. */
  lemma LivesWellEnded(gens: seq<Gen>, all: seq<Event>, clocks: Clocks)
    requires forall g | g in gens :: EndsNext(g, all, clocks)
    ensures WellEnded(gens)
  {
    forall i | 0 <= i < |gens| && gens[i].end.Some? ensures gens[i].start.ts <= gens[i].end.value.ts { assert gens[i] in gens; }
  }

  // ----- In terms of the trace's events -----

  // Armed at or before a time, with no later event of its timer by then.
  ghost predicate Live(st: Event, all: seq<Event>, t: int) {
    && st in all && st.Start? && st.ts <= t
    && forall e | e in all && e.addr == st.addr && st.ts < e.ts :: t < e.ts
  }

  // The timer's next event shows its CPU, or a pinned arming does.
  ghost predicate ShownOn(st: Event, all: seq<Event>, cpu: int)
    requires st.Start?
  {
    || (st.pinned && st.cpu == cpu)
    || exists e :: NextOf(st, e, all) && e.Expiry? && e.cpu == cpu
  }

  ghost predicate NextOf(st: Event, e: Event, all: seq<Event>) {
    && e in all && e.addr == st.addr && Precedes(st, e)
    && forall f | f in all && f.addr == st.addr && st.ts < f.ts :: Precedes(e, f)
  }

  // Every clock the expiry may be on reads it at some monotonic time, one of them within U of d.
  ghost predicate ExpiresNear(st: Event, clocks: Clocks, d: real, u: real)
    requires st.Start?
  {
    && !Unreadable(clocks.ClockOf(st.addr), st.expires, clocks.offsets)
    && exists m :: ReadAt(clocks.ClockOf(st.addr), st.expires, clocks.offsets, m) && d - u <= m as real <= d + u
  }

  lemma NearIsDeclared(st: Event, clocks: Clocks, d: real, u: real)
    requires st.Start?
    ensures var x := clocks.Values(st);
            && (x.None? <==> Unreadable(clocks.ClockOf(st.addr), st.expires, clocks.offsets))
            && (ExpiresNear(st, clocks, d, u) <==> x.Some? && Near(x.value, d, u))
  {
    hide Unreadable, ReadAt, MonoValues;
    var x := clocks.Values(st);
    ValuesComplete(clocks.ClockOf(st.addr), st.expires, clocks.offsets);
    if x.Some? {
      assert forall k | 0 <= k < |x.value| :: x.value[k] in x.value;
    }
  }

  // A live arming that may be what a deadline is for: not shown elsewhere, its expiry near the
  // deadline or not convertible.
  ghost predicate Contender(st: Event, all: seq<Event>, clocks: Clocks, t: int, d: real, s: Setting)
    requires st.Start?
  {
    && Live(st, all, t)
    && (forall cpu | ShownOn(st, all, cpu) :: cpu == s.rt)
    && (Unreadable(clocks.ClockOf(st.addr), st.expires, clocks.offsets) || ExpiresNear(st, clocks, d, s.u))
  }

  // The arming named for a write, as the trace has it: live at the write, shown on the real-time
  // CPU, due within U of the deadline; and no other timer has a contender beyond doubt.
  ghost predicate NamedFor(st: Event, w: Write, all: seq<Event>, clocks: Clocks, s: Setting)
    requires st.Start?
  {
    && !w.failed && w.value != 0 && s.mono(w.value).Some?
    && Live(st, all, w.ts) && ShownOn(st, all, s.rt) && ExpiresNear(st, clocks, s.mono(w.value).value, s.u)
    && forall other | other in all && other.Start? && other.addr != st.addr && Alone(other, all) ::
         !Contender(other, all, clocks, w.ts, s.mono(w.value).value, s)
  }

  lemma PendingIsLive(g: Gen, all: seq<Event>, clocks: Clocks, t: int)
    requires EndsNext(g, all, clocks) && PendingAt(g, t)
    ensures Live(g.start, all, t)
  {
  }

  lemma AloneIsPending(g: Gen, all: seq<Event>, clocks: Clocks, t: int)
    requires EndsNext(g, all, clocks) && Live(g.start, all, t) && Alone(g.start, all)
    ensures PendingAt(g, t)
  {
  }

  lemma CpuIsShown(g: Gen, all: seq<Event>, clocks: Clocks)
    requires EndsNext(g, all, clocks) && g.cpu.Some?
    ensures ShownOn(g.start, all, g.cpu.value)
  {
    if g.end.Some? && g.end.value.Expiry? { assert NextOf(g.start, g.end.value, all); }
  }

  // A pending arming with another bearing is no contender.
  lemma NoContender(g: Gen, all: seq<Event>, clocks: Clocks, t: int, d: real, s: Setting)
    requires EndsNext(g, all, clocks)
    requires (g.cpu.Some? && g.cpu.value != s.rt) || (g.x.Some? && !Near(g.x.value, d, s.u))
    ensures !Contender(g.start, all, clocks, t, d, s)
  {
    hide ExpiresNear, Unreadable, Near;
    NearIsDeclared(g.start, clocks, d, s.u);
    if g.cpu.Some? { CpuIsShown(g, all, clocks); }
  }

  lemma NamedInTrace(gens: seq<Gen>, all: seq<Event>, clocks: Clocks, w: Write, s: Setting, i: nat)
    requires (forall g | g in gens :: EndsNext(g, all, clocks)) && EachOnce(gens, all)
    requires Judged(gens, PendingSet(gens, w.ts), w, s, Named(i))
    ensures i < |gens| && gens[i].start in all && gens[i].start.Start? && NamedFor(gens[i].start, w, all, clocks, s)
  {
    hide EndsNext, Near, Contender, Live, ShownOn, Alone, PendingAt, ExpiresNear, Unreadable;
    NamedIsTheOne(gens, w, s, i);
    var g, d := gens[i], s.mono(w.value).value;
    assert g in gens;
    EndsNextParts(g, all, clocks);
    PendingIsLive(g, all, clocks, w.ts);
    CpuIsShown(g, all, clocks);
    NearIsDeclared(g.start, clocks, d, s.u);
    forall other | other in all && other.Start? && other.addr != g.start.addr && Alone(other, all)
      ensures !Contender(other, all, clocks, w.ts, d, s)
    {
      if Live(other, all, w.ts) { OtherIsNone(gens, all, clocks, w, s, i, other, d); } else { NotLive(other, all, clocks, w.ts, d, s); }
    }
  }

  lemma EndsNextParts(g: Gen, all: seq<Event>, clocks: Clocks)
    requires EndsNext(g, all, clocks)
    ensures g.start.Start? && g.start in all && g.x == clocks.Values(g.start)
  {
  }

  lemma NotLive(st: Event, all: seq<Event>, clocks: Clocks, t: int, d: real, s: Setting)
    requires st.Start? && !Live(st, all, t)
    ensures !Contender(st, all, clocks, t, d, s)
  {
  }

  lemma OtherIsNone(gens: seq<Gen>, all: seq<Event>, clocks: Clocks, w: Write, s: Setting, i: nat, other: Event, d: real)
    requires (forall g | g in gens :: EndsNext(g, all, clocks)) && EachOnce(gens, all) && i < |gens|
    requires other in all && other.Start? && other.addr != gens[i].start.addr && Alone(other, all) && Live(other, all, w.ts)
    requires forall j: nat | j < |gens| && PendingAt(gens[j], w.ts) && j != i ::
               (gens[j].cpu.Some? && gens[j].cpu.value != s.rt) || (gens[j].x.Some? && !Near(gens[j].x.value, d, s.u))
    ensures !Contender(other, all, clocks, w.ts, d, s)
  {
    hide EndsNext, Near, Contender, Live, Alone, PendingAt;
    assert StartCount(gens, other) > 0;
    CountHasStart(gens, other);
    var h :| h in gens && h.start == other;
    var j: nat :| j < |gens| && gens[j] == h;
    AloneIsPending(h, all, clocks, w.ts);
    NoContender(h, all, clocks, w.ts, d, s);
  }

  /** From the trace's events to the attribution: the armings are followed and each write judged by
      those pending at it. A write named for an arming has that arming's timer live, on the
      real-time CPU and due at the deadline, and no other timer that could be meant. */
  method AttributeTrace(expiries: seq<Event>, cancels: seq<Event>, starts: seq<Event>, clocks: Clocks,
                        writes: seq<Write>, s: Setting) returns (gens: seq<Gen>, out: seq<Verdict>)
    requires forall i, j | 0 <= i < j < |writes| :: writes[i].ts <= writes[j].ts
    ensures var all := expiries + cancels + starts;
            (forall g | g in gens :: EndsNext(g, all, clocks)) && EachOnce(gens, all)
    ensures |out| == |writes|
    ensures forall k | 0 <= k < |out| :: Judged(gens, PendingSet(gens, writes[k].ts), writes[k], s, out[k])
    ensures var all := expiries + cancels + starts;
            forall k | 0 <= k < |out| && out[k].Named? ::
              && out[k].gen < |gens| && gens[out[k].gen].start in all && gens[out[k].gen].start.Start?
              && NamedFor(gens[out[k].gen].start, writes[k], all, clocks, s)
  {
    hide EndsNext, EachOnce, Judged, NamedFor, WellEnded;
    ghost var all := expiries + cancels + starts;
    gens := Lives(expiries, cancels, starts, clocks);
    LivesWellEnded(gens, all, clocks);
    out := Attribute(gens, writes, s);
    forall k | 0 <= k < |out| && out[k].Named?
      ensures out[k].gen < |gens| && gens[out[k].gen].start in all && gens[out[k].gen].start.Start?
      ensures NamedFor(gens[out[k].gen].start, writes[k], all, clocks, s)
    {
      NamedInTrace(gens, all, clocks, writes[k], s, out[k].gen);
    }
  }
}
