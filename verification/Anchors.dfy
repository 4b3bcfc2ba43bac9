/** tools/timer_service.py: `match_anchors`, which pairs the TSC-stamped interrupts of a second
    trace instance with the main trace's, and `TscMap`, the conversion through the pairs.
    Stamps are whole: TSC counts and monotonic nanoseconds. */
module Anchors {
  import opened Basics
  import opened Products

  const ANCHOR_CHECK := 50
  const SUSPECT_CAP := 0.001
  const SUSPECT_MAX_NS := 50000.0
  const MIN_CONTINUATION := 5

  datatype Pair = Pair(tsc: int, mono: int)

  datatype Suspect = Suspect(index: nat, mono: int, off: real)

  datatype Reason =
    LastAnchor | NearAnother | OnlyIntoIt | AcrossIt | StampsApart | FewFollow | LaterDisagree | AlsoAgrees(shift: int)

  datatype Problem =
    | TooFew
    | Places(count: nat)
    | PastTheEnd(left: nat)
    | Disagrees(index: nat, why: Reason)
    | TooManySuspects(count: nat)

  // A main interval dm and an instance interval dt, both in nanoseconds, agree.
  predicate Near(dm: real, dt: real) {
    Abs(dm - dt) <= 2000.0 + 0.0001 * Abs(dt)
  }

  function Scaled(dt: int, slope: real): real {
    Mul(dt as real, slope)
  }

  // The two traces' stamps and the sampler's rate.
  datatype Stamps = Stamps(mono: seq<int>, tsc: seq<int>, slope: real) {
    // The interval between two instance anchors agrees with that between two main anchors.
    predicate IntervalAgrees(i0: nat, i: nat, j0: nat, j: nat)
      requires i0 < |tsc| && i < |tsc| && j0 < |mono| && j < |mono|
    {
      Near((mono[j] - mono[j0]) as real, Scaled(tsc[i] - tsc[i0], slope))
    }

    // The interval into instance anchor i agrees with that into main anchor start + i.
    predicate Agrees(i: nat, start: int)
      requires 1 <= i < |tsc|
    {
      1 <= start + i < |mono| && IntervalAgrees(i - 1, i, start + i - 1, start + i)
    }

    function Off(i: nat, j: nat): real
      requires 1 <= i < |tsc| && 1 <= j < |mono|
    {
      (mono[j] - mono[j - 1]) as real - Scaled(tsc[i] - tsc[i - 1], slope)
    }

    function Checked(): (k: nat)
      requires tsc != []
    {
      if ANCHOR_CHECK <= |tsc| - 1 then ANCHOR_CHECK else |tsc| - 1
    }

    // The instance's first intervals match the main trace's from anchor j on.
    predicate StartsAt(j: nat)
      requires tsc != []
    {
      j + Checked() < |mono| && forall i | 1 <= i <= Checked() :: Agrees(i, j)
    }

    predicate AllAgree(from: nat, count: nat, start: int)
      requires 1 <= from && from + count <= |tsc|
    {
      forall i | from <= i < from + count :: Agrees(i, start)
    }

    function Following(i: nat, j: nat): int {
      var n := |tsc| - (i + 2);
      var m := |mono| - (j + 2);
      var least := if n <= m then n else m;
      if ANCHOR_CHECK <= least then ANCHOR_CHECK else least
    }

    // None when instance anchor i, matched from main anchor `start` on, is an isolated suspect.
    function WhyNotSuspect(i: nat, start: nat, last: Option<nat>): Option<Reason>
      requires 1 <= i < |tsc| && start + i < |mono| && (last.Some? ==> last.value <= i)
    {
      var j := start + i;
      if i + 1 >= |tsc| || j + 1 >= |mono| then Some(LastAnchor)
      else if last.Some? && i - last.value <= ANCHOR_CHECK then Some(NearAnother)
      else if Agrees(i + 1, start) then Some(OnlyIntoIt)
      else if !IntervalAgrees(i - 1, i + 1, j - 1, j + 1) then Some(AcrossIt)
      else if Abs(Off(i, j)) > SUSPECT_MAX_NS then Some(StampsApart)
      else
        var n := Following(i, j);
        if n < MIN_CONTINUATION then Some(FewFollow)
        else if !AllAgree(i + 2, n, start) then Some(LaterDisagree)
        else if AllAgree(i + 2, n, start - 2) then Some(AlsoAgrees(-2))
        else if AllAgree(i + 2, n, start - 1) then Some(AlsoAgrees(-1))
        else if AllAgree(i + 2, n, start + 1) then Some(AlsoAgrees(1))
        else if AllAgree(i + 2, n, start + 2) then Some(AlsoAgrees(2))
        else None
    }
  }

  function Indices(suspects: seq<Suspect>): set<nat> {
    set s | s in suspects :: s.index
  }

  // The first n instance anchors with the main anchors from `start` on, the skipped left out.
  function PairsOf(s: Stamps, start: nat, n: nat, skip: set<nat>): seq<Pair>
    requires n <= |s.tsc| && start + n <= |s.mono|
  {
    if n == 0 then []
    else
      var init := PairsOf(s, start, n - 1, skip);
      if n - 1 in skip then init else init + [Pair(s.tsc[n - 1], s.mono[start + n - 1])]
  }

  // Suspects found among the first n anchors: each isolated, and more than ANCHOR_CHECK apart.
  ghost predicate IsolatedSuspects(s: Stamps, start: nat, suspects: seq<Suspect>) {
    && (forall k | 0 <= k < |suspects| :: IsSuspect(s, start, suspects, k))
    && Spaced(suspects)
  }

  ghost predicate Spaced(suspects: seq<Suspect>) {
    forall k | 0 <= k < |suspects| - 1 :: suspects[k].index + 50 < suspects[k + 1].index
  }

  ghost predicate IsSuspect(s: Stamps, start: nat, suspects: seq<Suspect>, k: nat)
    requires k < |suspects|
  {
    var x := suspects[k];
    Isolated(s, start, x.index) && x == Suspect(x.index, s.mono[start + x.index], s.Off(x.index, start + x.index))
  }

  // ----- An isolated suspect, condition by condition -----

  // Both traces go on after the anchor.
  predicate Inside(s: Stamps, start: nat, i: nat) {
    1 <= i && i + 1 < |s.tsc| && start + i + 1 < |s.mono|
  }

  // The interval out of it disagrees too, while the one across it agrees.
  predicate OwnStampsApart(s: Stamps, start: nat, i: nat)
    requires Inside(s, start, i)
  {
    !s.Agrees(i + 1, start) && s.IntervalAgrees(i - 1, i + 1, start + i - 1, start + i + 1)
  }

  // Its stamps differ by at most 50 us.
  predicate Slight(s: Stamps, start: nat, i: nat)
    requires Inside(s, start, i)
  {
    -50000.0 <= s.Off(i, start + i) <= 50000.0
  }

  // At least five intervals follow its successor in both traces.
  predicate GoesOn(s: Stamps, start: nat, i: nat) {
    i + 6 < |s.tsc| && start + i + 6 < |s.mono|
  }

  // Interval k is one of the next fifty, as far as both traces go.
  predicate Follows(s: Stamps, start: nat, i: nat, k: nat) {
    i + 2 <= k < i + 52 && k < |s.tsc| && start + k < |s.mono|
  }

  // They all agree, matched `shift` anchors off.
  ghost predicate FollowersAgree(s: Stamps, start: nat, i: nat, shift: int) {
    forall k | Follows(s, start, i, k) :: s.Agrees(k, start + shift)
  }

  predicate Shift(d: int) {
    d == -2 || d == -1 || d == 1 || d == 2
  }

  // All the conditions on the stamps alone: both of the anchor's intervals disagree while the
  // interval across it agrees, its own stamps lie within 50 us, and what follows agrees at this
  // place and at no other near it.
  ghost predicate Isolated(s: Stamps, start: nat, i: nat) {
    && Inside(s, start, i) && !s.Agrees(i, start) && OwnStampsApart(s, start, i) && Slight(s, start, i) && GoesOn(s, start, i)
    && FollowersAgree(s, start, i, 0) && forall d | Shift(d) :: !FollowersAgree(s, start, i, d)
  }

  predicate FarFrom(last: Option<nat>, i: nat) {
    last.Some? ==> last.value + 50 < i
  }

  // The first condition that an anchor with a disagreeing interval into it fails.
  ghost predicate Fails(s: Stamps, start: nat, i: nat, last: Option<nat>, why: Reason) {
    match why
    case LastAnchor => !Inside(s, start, i)
    case NearAnother => Inside(s, start, i) && !FarFrom(last, i)
    case OnlyIntoIt => Inside(s, start, i) && FarFrom(last, i) && s.Agrees(i + 1, start)
    case AcrossIt => Inside(s, start, i) && FarFrom(last, i) && !s.Agrees(i + 1, start)
                     && !s.IntervalAgrees(i - 1, i + 1, start + i - 1, start + i + 1)
    case StampsApart => Inside(s, start, i) && FarFrom(last, i) && OwnStampsApart(s, start, i) && !Slight(s, start, i)
    case FewFollow => Inside(s, start, i) && FarFrom(last, i) && OwnStampsApart(s, start, i) && Slight(s, start, i)
                      && !GoesOn(s, start, i)
    case LaterDisagree => Inside(s, start, i) && FarFrom(last, i) && OwnStampsApart(s, start, i) && Slight(s, start, i)
                          && GoesOn(s, start, i) && !FollowersAgree(s, start, i, 0)
    case AlsoAgrees(d) => Inside(s, start, i) && FarFrom(last, i) && OwnStampsApart(s, start, i) && Slight(s, start, i)
                          && GoesOn(s, start, i) && FollowersAgree(s, start, i, 0) && Shift(d)
                          && FollowersAgree(s, start, i, d) && forall e | Shift(e) && e < d :: !FollowersAgree(s, start, i, e)
  }

  lemma FollowingExact(s: Stamps, start: nat, i: nat, shift: int)
    requires Inside(s, start, i) && GoesOn(s, start, i)
    ensures s.Following(i, start + i) >= MIN_CONTINUATION
    ensures s.AllAgree(i + 2, s.Following(i, start + i), start + shift) <==> FollowersAgree(s, start, i, shift)
  {
    hide Stamps.Agrees;
    var n, at := s.Following(i, start + i), start + shift;
    assert forall k: nat :: Follows(s, start, i, k) <==> i + 2 <= k < i + 2 + n;
    if FollowersAgree(s, start, i, shift) {
      forall k | i + 2 <= k < i + 2 + n ensures s.Agrees(k, at) { assert Follows(s, start, i, k); }
    }
  }

  /** The reason given is the first condition that fails, and none is given exactly when the anchor
      is an isolated suspect far from the last. */
  lemma WhyExact(s: Stamps, start: nat, i: nat, last: Option<nat>)
    requires 1 <= i < |s.tsc| && start + i < |s.mono| && (last.Some? ==> last.value <= i) && !s.Agrees(i, start)
    ensures var why := s.WhyNotSuspect(i, start, last);
            if why.Some? then Fails(s, start, i, last, why.value) else Isolated(s, start, i) && FarFrom(last, i)
  {
    hide Stamps.Agrees, Stamps.IntervalAgrees, Stamps.AllAgree, FollowersAgree, Stamps.Off;
    if Inside(s, start, i) && GoesOn(s, start, i) {
      FollowingExact(s, start, i, 0);
      FollowingExact(s, start, i, -2);
      FollowingExact(s, start, i, -1);
      FollowingExact(s, start, i, 1);
      FollowingExact(s, start, i, 2);
      assert start + 0 == start && start + -2 == start - 2 && start + -1 == start - 1;
    }
  }

  // The interval into a kept anchor agrees, from the anchor before it or across a suspect.
  ghost predicate KeptAt(s: Stamps, start: nat, i: nat, skip: set<nat>)
    requires 1 <= i < |s.tsc| && start + i < |s.mono|
  {
    i !in skip ==>
      if i - 1 in skip then i >= 2 && i - 2 !in skip && s.IntervalAgrees(i - 2, i, start + i - 2, start + i)
      else s.Agrees(i, start)
  }

  ghost predicate KeptAgree(s: Stamps, start: nat, n: nat, skip: set<nat>) {
    n <= |s.tsc| && start + n <= |s.mono| && forall i | 1 <= i < n :: KeptAt(s, start, i, skip)
  }

  // The interval into instance anchor i and the main one at this place are within 2 us and
  // 1e-4 of each other.
  ghost predicate Tight(s: Stamps, start: nat, i: nat) {
    && 1 <= i < |s.tsc| && start + i < |s.mono|
    && (var dm, dt := (s.mono[start + i] - s.mono[start + i - 1]) as real, Scaled(s.tsc[i] - s.tsc[i - 1], s.slope);
        Abs(dm - dt) <= 2000.0 + 0.0001 * Abs(dt))
  }

  // The instance's first fifty intervals, or all if fewer, match from main anchor j on.
  ghost predicate MatchesAt(s: Stamps, j: nat) {
    forall i | 1 <= i <= 50 && i < |s.tsc| :: Tight(s, j, i)
  }

  lemma StartsExact(s: Stamps, j: nat)
    requires |s.tsc| >= 2
    ensures s.StartsAt(j) <==> MatchesAt(s, j)
  {
    hide Stamps.Agrees, Tight;
    forall i | 1 <= i < |s.tsc| ensures Tight(s, j, i) <==> s.Agrees(i, j) { TightAgrees(s, j, i); }
    if MatchesAt(s, j) {
      assert Tight(s, j, s.Checked());
      TightInside(s, j, s.Checked());
    }
  }

  lemma TightInside(s: Stamps, start: nat, i: nat)
    requires Tight(s, start, i)
    ensures start + i < |s.mono|
  {
  }

  lemma MatchesInside(s: Stamps, j: nat)
    requires |s.tsc| >= 2 && MatchesAt(s, j)
    ensures j < |s.mono|
  {
    assert Tight(s, j, 1);
  }

  // Exactly the places where the instance's first intervals match, in order.
  ghost predicate PlacesOf(s: Stamps, starts: seq<nat>)
    requires s.tsc != []
  {
    && (forall j: nat :: j in starts <==> MatchesAt(s, j))
    && (forall a, b | 0 <= a < b < |starts| :: starts[a] < starts[b])
  }

  // The places where the instance's first intervals match.
  method FindPlaces(s: Stamps) returns (starts: seq<nat>)
    requires |s.tsc| >= 2
    ensures PlacesOf(s, starts)
  {
    starts := [];
    var j := 0;
    while j < |s.mono|
      invariant 0 <= j <= |s.mono|
      invariant forall a | 0 <= a < |starts| :: starts[a] < j
      invariant forall q: nat :: q in starts <==> q < j && MatchesAt(s, q)
      invariant forall a, b | 0 <= a < b < |starts| :: starts[a] < starts[b]
    {
      StartsExact(s, j);
      if s.StartsAt(j) { starts := starts + [j]; }
      j := j + 1;
    }
    forall q: nat | MatchesAt(s, q) ensures q < |s.mono| { MatchesInside(s, q); }
  }

  // The first n instance anchors are paired, the skipped left out.
  ghost predicate Paired(s: Stamps, start: nat, n: nat, pairs: seq<Pair>, skip: set<nat>) {
    KeptAgree(s, start, n, skip) && pairs == PairsOf(s, start, n, skip) && forall i | i in skip :: i + 1 < n
  }

  // What the scan has found from the first n instance anchors.
  ghost predicate Scanned(s: Stamps, start: nat, n: nat, pairs: seq<Pair>, suspects: seq<Suspect>) {
    Paired(s, start, n, pairs, Indices(suspects)) && IsolatedSuspects(s, start, suspects)
  }

  lemma SkipOneMore(s: Stamps, start: nat, n: nat, skip: set<nat>, i: nat)
    requires n <= i && n <= |s.tsc| && start + n <= |s.mono|
    ensures PairsOf(s, start, n, skip + {i}) == PairsOf(s, start, n, skip)
  {
    if n > 0 { SkipOneMore(s, start, n - 1, skip, i); }
  }

  lemma PairedOneMore(s: Stamps, start: nat, i: nat, pairs: seq<Pair>, skip: set<nat>)
    requires i < |s.tsc| && start + i < |s.mono| && Paired(s, start, i, pairs, skip)
    requires i == 0 || s.Agrees(i, start)
    ensures Paired(s, start, i + 1, pairs + [Pair(s.tsc[i], s.mono[start + i])], skip)
  {
    hide Stamps.Agrees, Stamps.IntervalAgrees;
    assert i !in skip && (i > 0 ==> i - 1 !in skip && KeptAt(s, start, i, skip));
  }

  lemma PairedAcross(s: Stamps, start: nat, i: nat, pairs: seq<Pair>, skip: set<nat>)
    requires 1 <= i && i + 1 < |s.tsc| && start + i + 1 < |s.mono| && Paired(s, start, i, pairs, skip)
    requires s.IntervalAgrees(i - 1, i + 1, start + i - 1, start + i + 1)
    ensures Paired(s, start, i + 2, pairs + [Pair(s.tsc[i + 1], s.mono[start + i + 1])], skip + {i})
  {
    hide Stamps.Agrees, Stamps.IntervalAgrees;
    var skip' := skip + {i};
    SkipOneMore(s, start, i, skip, i);
    assert i + 1 !in skip' && i in skip' && i - 1 !in skip';
    forall k | 1 <= k < i + 2 ensures KeptAt(s, start, k, skip') {
      if k < i { assert KeptAt(s, start, k, skip); }
    }
    assert PairsOf(s, start, i + 1, skip') == pairs;
  }

  lemma SuspectAdded(s: Stamps, start: nat, i: nat, suspects: seq<Suspect>, last: Option<nat>, x: Suspect)
    requires 1 <= i < |s.tsc| && start + i < |s.mono| && !s.Agrees(i, start)
    requires IsolatedSuspects(s, start, suspects) && (last.Some? ==> last.value <= i)
    requires last == LastOf(suspects)
    requires s.WhyNotSuspect(i, start, last) == None
    requires x == Suspect(i, s.mono[start + i], s.Off(i, start + i))
    ensures IsolatedSuspects(s, start, suspects + [x])
  {
    hide Stamps.AllAgree, Stamps.Agrees, Stamps.IntervalAgrees, Stamps.WhyNotSuspect, Isolated;
    WhyExact(s, start, i, last);
    var more := suspects + [x];
    forall k | 0 <= k < |more| ensures IsSuspect(s, start, more, k) {
      if k < |suspects| { assert IsSuspect(s, start, suspects, k); }
    }
  }

  lemma ScanSkips(s: Stamps, start: nat, i: nat, pairs: seq<Pair>, suspects: seq<Suspect>, last: Option<nat>, x: Suspect)
    requires 1 <= i < |s.tsc| && start + i < |s.mono| && !s.Agrees(i, start) && Scanned(s, start, i, pairs, suspects)
    requires last == LastOf(suspects) && (last.Some? ==> last.value < i)
    requires s.WhyNotSuspect(i, start, last) == None
    requires x == Suspect(i, s.mono[start + i], s.Off(i, start + i))
    ensures i + 1 < |s.tsc| && start + i + 1 < |s.mono|
    ensures Scanned(s, start, i + 2, pairs + [Pair(s.tsc[i + 1], s.mono[start + i + 1])], suspects + [x])
  {
    hide IsSuspect, Paired, IsolatedSuspects, Stamps.AllAgree, Stamps.Agrees, Stamps.WhyNotSuspect;
    WhyExact(s, start, i, last);
    SuspectAdded(s, start, i, suspects, last, x);
    assert Indices(suspects + [x]) == Indices(suspects) + {i};
    PairedAcross(s, start, i, pairs, Indices(suspects));
  }

  lemma NothingScanned(s: Stamps, start: nat)
    requires start <= |s.mono|
    ensures Scanned(s, start, 0, [], [])
  {
  }

  // What a problem reported says of the stamps, with the pairs and suspects reported beside it.
  ghost predicate Justified(s: Stamps, pairs: seq<Pair>, suspects: seq<Suspect>, p: Problem) {
    match p
    case TooFew => |s.tsc| < 3 || |s.mono| < 3
    case Places(count) => s.tsc != [] && count != 1 && exists starts :: |starts| == count && PlacesOf(s, starts)
    case PastTheEnd(left) => exists start: nat :: Overruns(s, start, left, pairs, suspects)
    case Disagrees(i, why) => exists start: nat :: RealDisagreement(s, start, i, why, pairs, suspects)
    case TooManySuspects(count) => count == |suspects| && count as real > SUSPECT_CAP * |s.tsc| as real
  }

  // All but the last `left` anchors are paired or suspects, and the main trace ends there.
  ghost predicate Overruns(s: Stamps, start: nat, left: nat, pairs: seq<Pair>, suspects: seq<Suspect>) {
    && s.tsc != [] && MatchesAt(s, start) && 0 < left <= |s.tsc| && start + |s.tsc| - left == |s.mono|
    && Scanned(s, start, |s.tsc| - left, pairs, suspects)
  }

  function LastOf(suspects: seq<Suspect>): Option<nat> {
    if suspects == [] then None else Some(suspects[|suspects| - 1].index)
  }

  // All anchors before i are paired or suspects; the interval into i disagrees, and, given the last
  // of those suspects, i is no isolated one, for the reason reported.
  ghost predicate RealDisagreement(s: Stamps, start: nat, i: nat, why: Reason, pairs: seq<Pair>, suspects: seq<Suspect>) {
    && 1 <= i < |s.tsc| && start + i < |s.mono| && MatchesAt(s, start) && !s.Agrees(i, start)
    && Scanned(s, start, i, pairs, suspects)
    && (LastOf(suspects).Some? ==> LastOf(suspects).value < i)
    && Fails(s, start, i, LastOf(suspects), why)
  }

  // What a scan from `start` may report.
  ghost predicate FoundWhileScanning(s: Stamps, start: nat, pairs: seq<Pair>, suspects: seq<Suspect>, p: Problem) {
    match p
    case PastTheEnd(left) => Overruns(s, start, left, pairs, suspects)
    case Disagrees(i, why) => RealDisagreement(s, start, i, why, pairs, suspects)
    case _ => false
  }

  // Pairs the anchors from the place found on.
  method Scan(s: Stamps, start: nat) returns (pairs: seq<Pair>, problem: Option<Problem>, suspects: seq<Suspect>)
    requires s.tsc != [] && start < |s.mono| && MatchesAt(s, start)
    ensures problem.None? ==> Scanned(s, start, |s.tsc|, pairs, suspects)
    ensures problem.Some? ==> FoundWhileScanning(s, start, pairs, suspects, problem.value)
  {
    hide Paired, IsolatedSuspects, Indices, PairsOf;
    hide MatchesAt, Stamps.WhyNotSuspect, Stamps.IntervalAgrees, Fails, Isolated;
    NothingScanned(s, start);
    pairs, suspects, problem := [], [], None;
    var last: Option<nat> := None;
    var i := 0;
    while i < |s.tsc|
      invariant 0 <= i <= |s.tsc| && start + i <= |s.mono|
      invariant Scanned(s, start, i, pairs, suspects)
      invariant last == LastOf(suspects)
      invariant last.Some? ==> last.value < i
    {
      if start + i >= |s.mono| {
        assert Overruns(s, start, |s.tsc| - i, pairs, suspects);
        return pairs, Some(PastTheEnd(|s.tsc| - i)), suspects;
      }
      if i == 0 || s.Agrees(i, start) {
        PairedOneMore(s, start, i, pairs, Indices(suspects));
        pairs := pairs + [Pair(s.tsc[i], s.mono[start + i])];
        i := i + 1;
        continue;
      }
      var why := s.WhyNotSuspect(i, start, last);
      if why.Some? {
        WhyExact(s, start, i, last);
        assert RealDisagreement(s, start, i, why.value, pairs, suspects);
        return pairs, Some(Disagrees(i, why.value)), suspects;
      }
      var x := Suspect(i, s.mono[start + i], s.Off(i, start + i));
      ScanSkips(s, start, i, pairs, suspects, last, x);
      suspects, last := suspects + [x], Some(i);
      pairs := pairs + [Pair(s.tsc[i + 1], s.mono[start + i + 1])];
      i := i + 2;
    }
  }

  ghost predicate OnlyPlace(s: Stamps, start: nat) {
    s.tsc != [] && MatchesAt(s, start) && forall j: nat | MatchesAt(s, j) :: j == start
  }

  // The anchors are matched at one place, and each is paired or an isolated suspect.
  ghost predicate Matched(s: Stamps, start: nat, pairs: seq<Pair>, suspects: seq<Suspect>) {
    && OnlyPlace(s, start)
    && Scanned(s, start, |s.tsc|, pairs, suspects)
    && |suspects| as real <= SUSPECT_CAP * |s.tsc| as real
  }

  // ----- Which traces match -----

  ghost predicate Apart(bad: set<nat>) {
    forall a, b | a in bad && b in bad && a < b :: a + 50 < b
  }

  // These anchors, each isolated, more than fifty apart and at most 0.1 % of all, are behind
  // every disagreement.
  ghost predicate Explained(s: Stamps, start: nat, bad: set<nat>) {
    && (forall b | b in bad :: Isolated(s, start, b)) && Apart(bad) && |bad| as real <= 0.001 * |s.tsc| as real
    && forall i | 1 <= i < |s.tsc| :: Tight(s, start, i) || i in bad || i - 1 in bad
  }

  lemma TightAgrees(s: Stamps, start: nat, i: nat)
    requires 1 <= i < |s.tsc|
    ensures Tight(s, start, i) <==> s.Agrees(i, start)
  {
  }

  // An interval that disagrees comes from one of them.
  lemma DisagreementExplained(s: Stamps, start: nat, bad: set<nat>, i: nat)
    requires Explained(s, start, bad) && 1 <= i < |s.tsc| && !s.Agrees(i, start)
    ensures i in bad || i - 1 in bad
  {
    hide Tight, Stamps.Agrees, Isolated;
    TightAgrees(s, start, i);
  }

  lemma BadDisagrees(s: Stamps, start: nat, bad: set<nat>, b: nat)
    requires Explained(s, start, bad) && b in bad
    ensures 1 <= b && b + 6 < |s.tsc| && start + b + 6 < |s.mono| && !s.Agrees(b, start)
  {
    hide Tight, Stamps.Agrees;
  }

  lemma SuspectsDisagree(s: Stamps, start: nat, suspects: seq<Suspect>)
    requires IsolatedSuspects(s, start, suspects)
    ensures forall i | i in Indices(suspects) :: 1 <= i < |s.tsc| && !s.Agrees(i, start)
  {
    hide Stamps.Agrees, OwnStampsApart, Slight, FollowersAgree;
    forall i | i in Indices(suspects) ensures 1 <= i < |s.tsc| && !s.Agrees(i, start) {
      var k :| 0 <= k < |suspects| && suspects[k].index == i;
      assert IsSuspect(s, start, suspects, k);
    }
  }

  lemma {:induction false} SuspectsAscend(suspects: seq<Suspect>, j: nat, k: nat)
    requires Spaced(suspects) && j < k < |suspects|
    ensures suspects[j].index + 50 < suspects[k].index
    decreases k
  {
    assert suspects[k - 1].index + 50 < suspects[k - 1 + 1].index;
    if j < k - 1 { SuspectsAscend(suspects, j, k - 1); }
  }

  lemma SuspectsApart(suspects: seq<Suspect>)
    requires Spaced(suspects)
    ensures Apart(Indices(suspects))
    ensures suspects != [] ==> forall i | i in Indices(suspects) :: i <= suspects[|suspects| - 1].index
  {
    hide Spaced;
    forall a, b | a in Indices(suspects) && b in Indices(suspects) && a < b ensures a + 50 < b {
      var j :| 0 <= j < |suspects| && suspects[j].index == a;
      var k :| 0 <= k < |suspects| && suspects[k].index == b;
      if j < k { SuspectsAscend(suspects, j, k); } else { SuspectsAscend(suspects, k, j); }
    }
    forall i | i in Indices(suspects) ensures i <= suspects[|suspects| - 1].index {
      var j :| 0 <= j < |suspects| && suspects[j].index == i;
      if j < |suspects| - 1 { SuspectsAscend(suspects, j, |suspects| - 1); }
    }
  }

  lemma {:induction false} SuspectsCounted(suspects: seq<Suspect>)
    requires Spaced(suspects)
    ensures |Indices(suspects)| == |suspects|
  {
    if suspects == [] {
      assert Indices(suspects) == {};
    } else {
      var n := |suspects| - 1;
      var init, last := suspects[..n], suspects[n];
      SuspectsCounted(init);
      assert suspects == init + [last];
      assert Indices(suspects) == Indices(init) + {last.index};
      forall i | i in Indices(init) ensures i < last.index {
        var k :| 0 <= k < n && suspects[k].index == i;
        SuspectsAscend(suspects, k, n);
      }
      assert last.index !in Indices(init);
    }
  }

  // What has been scanned had exactly those of them set aside that lie in it.
  lemma ScannedAreExplained(s: Stamps, start: nat, n: nat, pairs: seq<Pair>, suspects: seq<Suspect>, bad: set<nat>)
    requires Scanned(s, start, n, pairs, suspects) && Explained(s, start, bad)
    ensures forall b :: b in bad && b + 1 < n ==> b in Indices(suspects)
    ensures forall b :: b in bad && b < n ==> b + 1 < n
    ensures forall b :: b in Indices(suspects) ==> b in bad
  {
    hide Stamps.Agrees, Stamps.IntervalAgrees, Isolated, IsSuspect, Tight;
    var skip := Indices(suspects);
    SuspectsDisagree(s, start, suspects);
    SuspectsApart(suspects);
    forall b | b in bad && b < n ensures b in skip {
      BadDisagrees(s, start, bad, b);
      assert KeptAt(s, start, b, skip);
      if b - 1 in skip { DisagreementExplained(s, start, bad, b - 1); }
    }
    forall b | b in skip ensures b in bad {
      DisagreementExplained(s, start, bad, b);
      assert b - 1 in bad ==> b - 1 in skip;
    }
  }

  lemma NothingFails(s: Stamps, start: nat, i: nat, last: Option<nat>, why: Reason)
    requires Isolated(s, start, i) && FarFrom(last, i)
    ensures !Fails(s, start, i, last, why)
  {
    hide Stamps.Agrees, FollowersAgree;
  }

  lemma NoDisagreementLeft(s: Stamps, start: nat, i: nat, why: Reason, pairs: seq<Pair>, suspects: seq<Suspect>, bad: set<nat>)
    requires Explained(s, start, bad)
    ensures !RealDisagreement(s, start, i, why, pairs, suspects)
  {
    hide Stamps.Agrees, MatchesAt, Isolated, Fails, IsSuspect, Paired, Tight;
    if RealDisagreement(s, start, i, why, pairs, suspects) {
      ScannedAreExplained(s, start, i, pairs, suspects, bad);
      SuspectsApart(suspects);
      DisagreementExplained(s, start, bad, i);
      if LastOf(suspects).Some? { assert suspects[|suspects| - 1] in suspects && LastOf(suspects).value in Indices(suspects); }
      NothingFails(s, start, i, LastOf(suspects), why);
    }
  }

  lemma NoOverrun(s: Stamps, start: nat, left: nat, pairs: seq<Pair>, suspects: seq<Suspect>, bad: set<nat>)
    requires Explained(s, start, bad) && |s.tsc| >= 3
    ensures !Overruns(s, start, left, pairs, suspects)
  {
    hide Scanned, Isolated, MatchesAt;
    var n := |s.tsc| - 1;
    assert n in bad ==> n + 6 < |s.tsc| by { if n in bad { BadDisagrees(s, start, bad, n); } }
    assert n - 1 in bad ==> n - 1 + 6 < |s.tsc| by { if n - 1 in bad { BadDisagrees(s, start, bad, n - 1); } }
    assert Tight(s, start, n);
  }

  // The anchors matched without a problem are explained by their suspects.
  lemma MatchedIsExplained(s: Stamps, start: nat, pairs: seq<Pair>, suspects: seq<Suspect>)
    requires Matched(s, start, pairs, suspects)
    ensures Explained(s, start, Indices(suspects))
  {
    hide Stamps.Agrees, Stamps.IntervalAgrees, Isolated, OnlyPlace, Tight;
    SuspectsApart(suspects);
    SuspectsCounted(suspects);
    forall b | b in Indices(suspects) ensures Isolated(s, start, b) {
      var k :| 0 <= k < |suspects| && suspects[k].index == b;
      assert IsSuspect(s, start, suspects, k);
    }
    forall i | 1 <= i < |s.tsc| && i !in Indices(suspects) && i - 1 !in Indices(suspects) ensures Tight(s, start, i) {
      assert KeptAt(s, start, i, Indices(suspects));
      TightAgrees(s, start, i);
    }
  }

  /** Without a problem every anchor is paired at the one offset or an isolated suspect, and a
      problem reported is one. There is none exactly when at one place some isolated anchors are
      behind every disagreement, and then those are the suspects. */
  method MatchAnchors(s: Stamps) returns (pairs: seq<Pair>, problems: seq<Problem>, suspects: seq<Suspect>)
    ensures problems == [] ==> exists start: nat :: Matched(s, start, pairs, suspects)
    ensures forall p | p in problems :: Justified(s, pairs, suspects, p)
    ensures problems == [] ==> exists start: nat :: OnlyPlace(s, start) && Explained(s, start, Indices(suspects))
    ensures |s.tsc| >= 3 && |s.mono| >= 3 ==>
              forall start: nat, bad | OnlyPlace(s, start) && Explained(s, start, bad) ::
                problems == [] && Indices(suspects) == bad && |suspects| == |bad|
  {
    if |s.tsc| < 3 || |s.mono| < 3 { return [], [TooFew], []; }
    var starts := FindPlaces(s);
    if |starts| != 1 {
      assert forall start: nat | OnlyPlace(s, start) :: starts == [start] by { OnePlace(s, starts); }
      return [], [Places(|starts|)], [];
    }
    var start := starts[0];
    assert start in starts && OnlyPlace(s, start);
    MatchesInside(s, start);
    hide Scanned, Justified, OnlyPlace, MatchesAt, PlacesOf, Explained, Indices, FoundWhileScanning;
    var problem: Option<Problem>;
    pairs, problem, suspects := Scan(s, start);
    problems := if problem.Some? then [problem.value] else [];
    if problem.Some? { FoundIsJustified(s, start, pairs, suspects, problem.value); }
    if |suspects| as real > SUSPECT_CAP * |s.tsc| as real {
      ManyJustified(s, pairs, suspects);
      problems := problems + [TooManySuspects(|suspects|)];
    }
    assert problems == [] ==> Matched(s, start, pairs, suspects);
    if problems == [] { MatchedIsExplained(s, start, pairs, suspects); }
    forall other: nat, bad | OnlyPlace(s, other) && Explained(s, other, bad)
      ensures problems == [] && Indices(suspects) == bad && |suspects| == |bad|
    {
      SamePlace(s, start, other);
      ExplainedMatches(s, start, pairs, problem, suspects, bad);
    }
  }

  // A scan of explained anchors meets no problem and finds exactly those behind the disagreements.
  lemma ExplainedMatches(s: Stamps, start: nat, pairs: seq<Pair>, problem: Option<Problem>, suspects: seq<Suspect>, bad: set<nat>)
    requires OnlyPlace(s, start) && Explained(s, start, bad) && |s.tsc| >= 3
    requires problem.None? ==> Scanned(s, start, |s.tsc|, pairs, suspects)
    requires problem.Some? ==> FoundWhileScanning(s, start, pairs, suspects, problem.value)
    ensures problem.None? && Indices(suspects) == bad && |suspects| == |bad|
  {
    hide Explained, RealDisagreement, Overruns, Scanned, OnlyPlace;
    if problem.Some? {
      match problem.value
      case PastTheEnd(left) => NoOverrun(s, start, left, pairs, suspects, bad);
      case Disagrees(i, why) => NoDisagreementLeft(s, start, i, why, pairs, suspects, bad);
    } else {
      ScannedAreExplained(s, start, |s.tsc|, pairs, suspects, bad);
      forall b | b in bad ensures b + 1 < |s.tsc| { BadDisagrees(s, start, bad, b); }
      assert Indices(suspects) == bad;
      assert IsolatedSuspects(s, start, suspects) by { ScannedSuspects(s, start, pairs, suspects); }
      SuspectsCounted(suspects);
    }
  }

  lemma ScannedSuspects(s: Stamps, start: nat, pairs: seq<Pair>, suspects: seq<Suspect>)
    requires Scanned(s, start, |s.tsc|, pairs, suspects)
    ensures IsolatedSuspects(s, start, suspects)
  {
  }

  lemma SamePlace(s: Stamps, start: nat, other: nat)
    requires OnlyPlace(s, start) && OnlyPlace(s, other)
    ensures start == other
  {
  }

  lemma FoundIsJustified(s: Stamps, start: nat, pairs: seq<Pair>, suspects: seq<Suspect>, p: Problem)
    requires FoundWhileScanning(s, start, pairs, suspects, p)
    ensures Justified(s, pairs, suspects, p)
  {
    hide Overruns, RealDisagreement;
  }

  lemma ManyJustified(s: Stamps, pairs: seq<Pair>, suspects: seq<Suspect>)
    requires |suspects| as real > SUSPECT_CAP * |s.tsc| as real
    ensures Justified(s, pairs, suspects, TooManySuspects(|suspects|))
  {
  }

  lemma OnePlace(s: Stamps, starts: seq<nat>)
    requires s.tsc != [] && PlacesOf(s, starts)
    ensures forall start: nat | OnlyPlace(s, start) :: starts == [start]
  {
    assert |starts| > 1 ==> starts[0] < starts[1];
    forall start: nat | OnlyPlace(s, start) ensures starts == [start] {
      assert start in starts;
      forall a | 0 <= a < |starts| ensures starts[a] == start {
        assert starts[a] in starts;
        assert MatchesAt(s, starts[a]);
      }
    }
  }

  // Successive pairs agree.
  ghost predicate Chained(pairs: seq<Pair>, slope: real) {
    forall k | 0 <= k < |pairs| - 1 :: Link(pairs[k], pairs[k + 1], slope)
  }

  ghost predicate Link(p: Pair, q: Pair, slope: real) {
    var dt := Scaled(q.tsc - p.tsc, slope);
    Abs((q.mono - p.mono) as real - dt) <= 2000.0 + 0.0001 * Abs(dt)
  }

  lemma LinkIsNear(p: Pair, q: Pair, slope: real)
    ensures Link(p, q, slope) <==> Near((q.mono - p.mono) as real, Scaled(q.tsc - p.tsc, slope))
  {
  }

  lemma {:induction false} PairsChained(s: Stamps, start: nat, n: nat, skip: set<nat>)
    requires KeptAgree(s, start, n, skip) && 0 !in skip
    ensures Chained(PairsOf(s, start, n, skip), s.slope)
    ensures n > 0 && n - 1 !in skip ==>
              var p := PairsOf(s, start, n, skip); p != [] && p[|p| - 1] == Pair(s.tsc[n - 1], s.mono[start + n - 1])
  {
    hide Near, Link;
    if n > 0 {
      PairsChained(s, start, n - 1, skip);
      var last := Pair(s.tsc[n - 1], s.mono[start + n - 1]);
      if n >= 2 {
        assert KeptAt(s, start, n - 1, skip);
        PairsChained(s, start, n - 2, skip);
        LinkIsNear(Pair(s.tsc[n - 2], s.mono[start + n - 2]), last, s.slope);
      }
      if n >= 3 { LinkIsNear(Pair(s.tsc[n - 3], s.mono[start + n - 3]), last, s.slope); }
    }
  }

  /** The pairs returned without a problem agree one to the next. */
  lemma MatchedChained(s: Stamps, start: nat, pairs: seq<Pair>, suspects: seq<Suspect>)
    requires Matched(s, start, pairs, suspects)
    ensures Chained(pairs, s.slope)
  {
    forall k | 0 <= k < |suspects| ensures suspects[k].index != 0 { assert IsSuspect(s, start, suspects, k); }
    PairsChained(s, start, |s.tsc|, Indices(suspects));
  }

  // How far the scaled TSC stamps travel from pair a to pair b.
  ghost function Travel(pairs: seq<Pair>, slope: real, a: nat, b: nat): real
    requires a <= b < |pairs|
  {
    if a == b then 0.0 else Travel(pairs, slope, a, b - 1) + Abs(Scaled(pairs[b].tsc - pairs[b - 1].tsc, slope))
  }

  lemma ScaledAdds(x: int, y: int, slope: real)
    ensures Scaled(x + y, slope) == Scaled(x, slope) + Scaled(y, slope)
  {
    hide Mul;
    MulAdds(x as real, y as real, slope);
    assert (x + y) as real == x as real + y as real;
  }

  lemma ScaledForward(x: int, slope: real)
    requires x >= 0 && slope >= 0.0
    ensures Scaled(x, slope) >= 0.0
  {
    hide Mul;
    MulSign(x as real, slope);
  }

  lemma ScaledNothing(slope: real)
    ensures Scaled(0, slope) == 0.0
  {
    hide Mul;
    MulUnits(slope);
  }

  /** Between any two pairs the two clocks drift apart by no more than the allowances of the
      intervals between them, added up. */
  lemma {:induction false} DriftBounded(pairs: seq<Pair>, slope: real, a: nat, b: nat)
    requires a <= b < |pairs| && Chained(pairs, slope)
    ensures Abs((pairs[b].mono - pairs[a].mono) as real - Scaled(pairs[b].tsc - pairs[a].tsc, slope))
         <= 2000.0 * (b - a) as real + 0.0001 * Travel(pairs, slope, a, b)
  {
    hide Scaled;
    if a == b {
      ScaledNothing(slope);
    } else {
      DriftBounded(pairs, slope, a, b - 1);
      assert Link(pairs[b - 1], pairs[b - 1 + 1], slope);
      ScaledAdds(pairs[b - 1].tsc - pairs[a].tsc, pairs[b].tsc - pairs[b - 1].tsc, slope);
    }
  }

  /** With the counter going forward, the way travelled is the interval itself. */
  lemma {:induction false} ForwardTravel(pairs: seq<Pair>, slope: real, a: nat, b: nat)
    requires a <= b < |pairs| && slope >= 0.0 && forall k | 0 <= k < |pairs| - 1 :: pairs[k].tsc <= pairs[k + 1].tsc
    ensures Travel(pairs, slope, a, b) == Scaled(pairs[b].tsc - pairs[a].tsc, slope)
  {
    hide Scaled;
    if a == b {
      ScaledNothing(slope);
    } else {
      ForwardTravel(pairs, slope, a, b - 1);
      assert pairs[b - 1].tsc <= pairs[b - 1 + 1].tsc;
      ScaledForward(pairs[b].tsc - pairs[b - 1].tsc, slope);
      ScaledAdds(pairs[b - 1].tsc - pairs[a].tsc, pairs[b].tsc - pairs[b - 1].tsc, slope);
    }
  }
}

module TscConversion {
  import opened Anchors
  import opened Basics
  import opened Products
  import Bisect
  import opened Sorting

  // Python's order of pairs.
  predicate Before(p: Pair, q: Pair) {
    p.tsc < q.tsc || (p.tsc == q.tsc && p.mono <= q.mono)
  }

  function Times(pairs: seq<Pair>): (t: seq<real>)
    ensures |t| == |pairs| && forall k | 0 <= k < |t| :: t[k] == pairs[k].tsc as real
  {
    seq(|pairs|, k requires 0 <= k < |pairs| => pairs[k].tsc as real)
  }

  function Lerp(p: Pair, q: Pair, x: int): real
    requires p.tsc != q.tsc
  {
    p.mono as real + Div(Mul((q.mono - p.mono) as real, (x - p.tsc) as real), (q.tsc - p.tsc) as real)
  }

  // The anchors in order.
  function Build(anchors: seq<Pair>): (pairs: seq<Pair>)
    ensures SortedBy(Before, pairs) && multiset(pairs) == multiset(anchors)
  {
    SortSorted(anchors, Before);
    Sort(anchors, Before)
  }

  ghost predicate Ordered(pairs: seq<Pair>) {
    SortedBy(Before, pairs)
  }

  // The monotonic time of a TSC value by linear interpolation; None outside the anchors.
  function Mono(pairs: seq<Pair>, x: int): (m: Option<real>)
    requires Ordered(pairs)
    ensures m.Some? <==> pairs != [] && pairs[0].tsc <= x <= pairs[|pairs| - 1].tsc
  {
    if pairs == [] || x < pairs[0].tsc || x > pairs[|pairs| - 1].tsc then None
    else
      var k := Bisect.Right(Times(pairs), x as real);
      if k >= |pairs| then Some(pairs[|pairs| - 1].mono as real)
      // bisect_right leaves t[k - 1] <= x < t[k], so the two stamps differ.
      else
        assert Times(pairs)[k - 1] <= x as real < Times(pairs)[k];
        Some(Lerp(pairs[k - 1], pairs[k], x))
  }

  // x lies from pair k on, and before the next one.
  ghost predicate In(pairs: seq<Pair>, k: nat, x: int) {
    k < |pairs| && pairs[k].tsc <= x && (k + 1 < |pairs| ==> x < pairs[k + 1].tsc)
  }

  ghost function ValueIn(pairs: seq<Pair>, k: nat, x: int): real
    requires In(pairs, k, x)
  {
    if k + 1 == |pairs| then pairs[k].mono as real else Lerp(pairs[k], pairs[k + 1], x)
  }

  // The value is interpolated from the last pair not above x.
  lemma MonoIn(pairs: seq<Pair>, x: int) returns (k: nat)
    requires Ordered(pairs) && Mono(pairs, x).Some?
    ensures In(pairs, k, x) && Mono(pairs, x) == Some(ValueIn(pairs, k, x))
  {
    var r := Bisect.Right(Times(pairs), x as real);
    assert Times(pairs)[0] <= x as real;
    k := r - 1;
    assert Times(pairs)[k] <= x as real;
  }

  lemma Located(pairs: seq<Pair>, k: nat, x: int, i: nat)
    requires Ordered(pairs) && In(pairs, k, x) && i < |pairs|
    ensures pairs[i].tsc <= x ==> i <= k && (i < k ==> pairs[i].mono <= pairs[k].mono || pairs[i].tsc < pairs[k].tsc)
    ensures x < pairs[i].tsc ==> k < i
  {
    assert k + 1 < i ==> Before(pairs[k + 1], pairs[i]);
    assert i < k ==> Before(pairs[i], pairs[k]);
  }

  lemma LerpStarts(p: Pair, q: Pair)
    requires p.tsc != q.tsc
    ensures Lerp(p, q, p.tsc) == p.mono as real
  {
    hide Mul, Div;
    var d, c := (q.mono - p.mono) as real, (q.tsc - p.tsc) as real;
    MulSwaps(d, 0.0);
    MulUnits(d);
    MulUnits(c);
    DivIs(Mul(d, 0.0), c, 0.0);
  }

  /** The conversion passes through every anchor: of anchors sharing a stamp, the latest one. */
  lemma ThroughAnchors(pairs: seq<Pair>, k: nat)
    requires Ordered(pairs) && k < |pairs| && (k + 1 < |pairs| ==> pairs[k].tsc < pairs[k + 1].tsc)
    ensures Mono(pairs, pairs[k].tsc) == Some(pairs[k].mono as real)
  {
    hide Lerp;
    var j := MonoIn(pairs, pairs[k].tsc);
    Located(pairs, j, pairs[k].tsc, k);
    if k + 1 < |pairs| {
      Located(pairs, j, pairs[k].tsc, k + 1);
      LerpStarts(pairs[k], pairs[k + 1]);
    }
  }

  // How far x has come from p to q, as a share of the whole.
  function ShareTo(p: Pair, q: Pair, x: int): real
    requires p.tsc != q.tsc
  {
    Div((x - p.tsc) as real, (q.tsc - p.tsc) as real)
  }

  lemma ShareBounds(p: Pair, q: Pair, x: int, y: int)
    requires p.tsc < q.tsc && p.tsc <= x <= y <= q.tsc
    ensures 0.0 <= ShareTo(p, q, x) <= ShareTo(p, q, y) <= 1.0
  {
    hide Div;
    var c := (q.tsc - p.tsc) as real;
    DivWithin((x - p.tsc) as real, c);
    DivWithin((y - p.tsc) as real, c);
    DivMonotone((x - p.tsc) as real, (y - p.tsc) as real, c);
  }

  // The interpolation is p's stamp and that share of the way to q's.
  lemma LerpIsShare(p: Pair, q: Pair, x: int)
    requires p.tsc != q.tsc
    ensures Lerp(p, q, x) == p.mono as real + Mul(ShareTo(p, q, x), (q.mono - p.mono) as real)
  {
    hide Mul, Div;
    var d, w, c := (q.mono - p.mono) as real, (x - p.tsc) as real, (q.tsc - p.tsc) as real;
    var u := Div(w, c);
    DivMul(w, c);
    MulAssociates(d, u, c);
    MulSwaps(d, u);
    DivIs(Mul(d, w), c, Mul(u, d));
  }

  lemma LerpMonotone(p: Pair, q: Pair, x: int, y: int)
    requires p.tsc < q.tsc && p.mono <= q.mono && p.tsc <= x <= y <= q.tsc
    ensures p.mono as real <= Lerp(p, q, x) <= Lerp(p, q, y) <= q.mono as real
  {
    hide Mul, Div, Lerp, ShareTo;
    var d := (q.mono - p.mono) as real;
    ShareBounds(p, q, x, y);
    LerpIsShare(p, q, x);
    LerpIsShare(p, q, y);
    ShareWithin(ShareTo(p, q, x), d);
    ShareWithin(ShareTo(p, q, y), d);
    MulMonotone(ShareTo(p, q, x), ShareTo(p, q, y), d);
  }

  ghost predicate MonoForward(pairs: seq<Pair>) {
    forall i, j | 0 <= i < j < |pairs| :: pairs[i].mono <= pairs[j].mono
  }

  lemma ValueBounds(pairs: seq<Pair>, k: nat, x: int)
    requires Ordered(pairs) && MonoForward(pairs) && In(pairs, k, x)
    ensures pairs[k].mono as real <= ValueIn(pairs, k, x)
    ensures k + 1 < |pairs| ==> ValueIn(pairs, k, x) <= pairs[k + 1].mono as real
  {
    if k + 1 < |pairs| { LerpMonotone(pairs[k], pairs[k + 1], x, x); }
  }

  /** Monotone anchors make a monotone conversion. */
  lemma ConversionMonotone(pairs: seq<Pair>, x: int, y: int)
    requires Ordered(pairs) && MonoForward(pairs) && x <= y && Mono(pairs, x).Some? && Mono(pairs, y).Some?
    ensures Mono(pairs, x).value <= Mono(pairs, y).value
  {
    var j := MonoIn(pairs, x);
    var k := MonoIn(pairs, y);
    Located(pairs, k, y, j);
    if j == k {
      if k + 1 < |pairs| { LerpMonotone(pairs[k], pairs[k + 1], x, y); }
    } else {
      ValueBounds(pairs, j, x);
      ValueBounds(pairs, k, y);
    }
  }

  /** Every value converted lies between its neighbouring anchors' stamps. */
  lemma ConversionBetween(pairs: seq<Pair>, x: int, i: nat, j: nat)
    requires Ordered(pairs) && MonoForward(pairs) && i < |pairs| && j < |pairs|
    requires pairs[i].tsc <= x < pairs[j].tsc
    ensures Mono(pairs, x).Some? && pairs[i].mono as real <= Mono(pairs, x).value <= pairs[j].mono as real
  {
    assert i > 0 ==> Before(pairs[0], pairs[i]);
    assert j < |pairs| - 1 ==> Before(pairs[j], pairs[|pairs| - 1]);
    var k := MonoIn(pairs, x);
    Located(pairs, k, x, i);
    Located(pairs, k, x, j);
    ValueBounds(pairs, k, x);
  }

  // How far the two clocks drift apart from one pair to another.
  function Drift(p: Pair, q: Pair, slope: real): real {
    (q.mono - p.mono) as real - Scaled(q.tsc - p.tsc, slope)
  }

  // What of the drift from p to q has come about at x.
  function DriftAt(p: Pair, q: Pair, x: int, slope: real): real
    requires p.tsc != q.tsc
  {
    Mul(ShareTo(p, q, x), Drift(p, q, slope))
  }

  lemma LerpDrifts(p: Pair, q: Pair, x: int, slope: real)
    requires p.tsc != q.tsc
    ensures Lerp(p, q, x) - p.mono as real - Scaled(x - p.tsc, slope) == DriftAt(p, q, x, slope)
  {
    hide Mul, Div, Lerp;
    var w, c, u := (x - p.tsc) as real, (q.tsc - p.tsc) as real, ShareTo(p, q, x);
    LerpIsShare(p, q, x);
    DivMul(w, c);
    MulAssociates(u, c, slope);
    MulSwaps(u, (q.mono - p.mono) as real);
    MulSwaps(u, Mul(c, slope));
    MulSwaps(u, Drift(p, q, slope));
    MulAdds((q.mono - p.mono) as real, Mul(c, slope), u);
  }

  lemma ShareOfDrift(u: real, e: real)
    requires 0.0 <= u <= 1.0
    ensures Abs(Mul(u, e)) <= Abs(e)
  {
    hide Mul;
    if e >= 0.0 {
      ShareWithin(u, e);
    } else {
      ShareWithin(u, -e);
      MulSwaps(u, e);
      MulSwaps(u, -e);
      MulUnits(u);
      MulAdds(0.0, e, u);
    }
  }

  // The drift still to come, and the drift between two places, are shares of it too.
  lemma DriftBetween(p: Pair, q: Pair, x: int, y: int, slope: real)
    requires p.tsc < q.tsc && p.tsc <= x <= y <= q.tsc
    ensures Abs(DriftAt(p, q, y, slope) - DriftAt(p, q, x, slope)) <= Abs(Drift(p, q, slope))
    ensures Abs(DriftAt(p, q, x, slope)) <= Abs(Drift(p, q, slope))
    ensures Abs(Drift(p, q, slope) - DriftAt(p, q, x, slope)) <= Abs(Drift(p, q, slope))
  {
    hide Mul, Div, ShareTo, Drift;
    var u, v, e := ShareTo(p, q, x), ShareTo(p, q, y), Drift(p, q, slope);
    ShareBounds(p, q, x, y);
    MulAdds(v, u, e);
    MulAdds(1.0, u, e);
    MulUnits(e);
    ShareOfDrift(v - u, e);
    ShareOfDrift(u, e);
    ShareOfDrift(1.0 - u, e);
  }

  ghost predicate Increasing(pairs: seq<Pair>) {
    forall i, j | 0 <= i < j < |pairs| :: pairs[i].tsc < pairs[j].tsc
  }

  // What the intervals from pair a to pair b may drift.
  ghost function Allowance(pairs: seq<Pair>, slope: real, a: nat, b: nat): real
    requires a <= b < |pairs|
  {
    2000.0 * (b - a) as real + 0.0001 * Travel(pairs, slope, a, b)
  }

  lemma {:induction false} TravelJoins(pairs: seq<Pair>, slope: real, a: nat, b: nat, c: nat)
    requires a <= b <= c < |pairs|
    ensures Travel(pairs, slope, a, c) == Travel(pairs, slope, a, b) + Travel(pairs, slope, b, c)
    decreases c
  {
    if b < c { TravelJoins(pairs, slope, a, b, c - 1); }
  }

  lemma LinkDrift(pairs: seq<Pair>, slope: real, k: nat)
    requires k + 1 < |pairs| && Chained(pairs, slope)
    ensures Abs(Drift(pairs[k], pairs[k + 1], slope)) <= Allowance(pairs, slope, k, k + 1)
  {
    hide Scaled;
    DriftBounded(pairs, slope, k, k + 1);
  }

  // The pair after the one x lies from, if there is one.
  function EndOf(pairs: seq<Pair>, k: nat): nat {
    if k + 1 < |pairs| then k + 1 else k
  }

  // How far the converted values drift from the sampler's rate between x and y.
  ghost function Strays(pairs: seq<Pair>, slope: real, j: nat, k: nat, x: int, y: int): real
    requires In(pairs, j, x) && In(pairs, k, y)
  {
    Abs(ValueIn(pairs, k, y) - ValueIn(pairs, j, x) - Scaled(y - x, slope))
  }

  lemma StraysWithin(pairs: seq<Pair>, slope: real, k: nat, x: int, y: int)
    requires Increasing(pairs) && Chained(pairs, slope) && In(pairs, k, x) && In(pairs, k, y) && x <= y
    requires y <= pairs[|pairs| - 1].tsc
    ensures Strays(pairs, slope, k, k, x, y) <= Allowance(pairs, slope, k, EndOf(pairs, k))
  {
    hide Scaled, Lerp, Drift, DriftAt;
    if k + 1 < |pairs| {
      var p, q := pairs[k], pairs[k + 1];
      LinkDrift(pairs, slope, k);
      LerpDrifts(p, q, x, slope);
      LerpDrifts(p, q, y, slope);
      DriftBetween(p, q, x, y, slope);
      ScaledAdds(x - p.tsc, y - x, slope);
    } else {
      ScaledNothing(slope);
    }
  }

  lemma ToPair(pairs: seq<Pair>, slope: real, j: nat, x: int)
    requires Increasing(pairs) && Chained(pairs, slope) && In(pairs, j, x) && j + 1 < |pairs|
    ensures Abs(pairs[j + 1].mono as real - ValueIn(pairs, j, x) - Scaled(pairs[j + 1].tsc - x, slope))
         <= Allowance(pairs, slope, j, j + 1)
  {
    hide Scaled, Lerp, Drift, DriftAt;
    var p, q := pairs[j], pairs[j + 1];
    LinkDrift(pairs, slope, j);
    LerpDrifts(p, q, x, slope);
    DriftBetween(p, q, x, x, slope);
    DriftIs(p, q, slope);
    ScaledAdds(x - p.tsc, q.tsc - x, slope);
  }

  lemma AllowanceJoins(pairs: seq<Pair>, slope: real, a: nat, b: nat, c: nat)
    requires a <= b <= c < |pairs|
    ensures Allowance(pairs, slope, a, c) == Allowance(pairs, slope, a, b) + Allowance(pairs, slope, b, c)
  {
    TravelJoins(pairs, slope, a, b, c);
  }

  lemma StraysAcross(pairs: seq<Pair>, slope: real, j: nat, k: nat, x: int, y: int)
    requires Increasing(pairs) && Chained(pairs, slope) && In(pairs, j, x) && In(pairs, k, y) && j < k
    requires y <= pairs[|pairs| - 1].tsc
    ensures Strays(pairs, slope, j, k, x, y) <= Allowance(pairs, slope, j, EndOf(pairs, k))
  {
    var q, r := pairs[j + 1], pairs[k];
    hide Scaled, ValueIn, Chained, Increasing, In;
    ToPair(pairs, slope, j, x);
    assert Abs((r.mono - q.mono) as real - Scaled(r.tsc - q.tsc, slope)) <= Allowance(pairs, slope, j + 1, k) by {
      DriftBounded(pairs, slope, j + 1, k);
    }
    FromPair(pairs, slope, k, y);
    ScaledAdds(q.tsc - x, r.tsc - q.tsc, slope);
    ScaledAdds(r.tsc - x, y - r.tsc, slope);
    hide Allowance;
    AllowanceJoins(pairs, slope, j, j + 1, k);
    AllowanceJoins(pairs, slope, j, k, EndOf(pairs, k));
  }

  lemma DriftIs(p: Pair, q: Pair, slope: real)
    ensures Drift(p, q, slope) == (q.mono - p.mono) as real - Scaled(q.tsc - p.tsc, slope)
  {
  }

  lemma FromPair(pairs: seq<Pair>, slope: real, k: nat, y: int)
    requires Increasing(pairs) && Chained(pairs, slope) && In(pairs, k, y) && y <= pairs[|pairs| - 1].tsc
    ensures Abs(ValueIn(pairs, k, y) - pairs[k].mono as real - Scaled(y - pairs[k].tsc, slope))
         <= Allowance(pairs, slope, k, EndOf(pairs, k))
  {
    hide Scaled, Lerp, Drift, DriftAt;
    if k + 1 < |pairs| {
      LinkDrift(pairs, slope, k);
      LerpDrifts(pairs[k], pairs[k + 1], y, slope);
      DriftBetween(pairs[k], pairs[k + 1], y, y, slope);
    } else {
      ScaledNothing(slope);
    }
  }

  // Between x and y the converted values keep to the sampler's rate within the allowances of the
  // intervals from the pair before x to the pair after y.
  ghost predicate RateKept(pairs: seq<Pair>, slope: real, x: int, y: int)
    requires Ordered(pairs) && Mono(pairs, x).Some? && Mono(pairs, y).Some?
  {
    exists j, k :: In(pairs, j, x) && In(pairs, k, y) && j <= k &&
      Abs(Mono(pairs, y).value - Mono(pairs, x).value - Scaled(y - x, slope)) <= Allowance(pairs, slope, j, EndOf(pairs, k))
  }

  /** Any two converted values of agreeing anchors keep to the sampler's rate between them. */
  lemma KeepsRate(pairs: seq<Pair>, slope: real, x: int, y: int)
    requires Increasing(pairs) && Ordered(pairs) && Chained(pairs, slope) && x <= y
    requires Mono(pairs, x).Some? && Mono(pairs, y).Some?
    ensures RateKept(pairs, slope, x, y)
  {
    hide Scaled, Allowance, Mono;
    var j := MonoIn(pairs, x);
    var k := MonoIn(pairs, y);
    Located(pairs, k, y, j);
    MonoInside(pairs, y);
    if j == k { StraysWithin(pairs, slope, k, x, y); } else { StraysAcross(pairs, slope, j, k, x, y); }
  }

  lemma MonoInside(pairs: seq<Pair>, x: int)
    requires Ordered(pairs) && Mono(pairs, x).Some?
    ensures pairs != [] && x <= pairs[|pairs| - 1].tsc
  {
  }

  lemma {:induction false} SortedStays(pairs: seq<Pair>)
    requires Increasing(pairs)
    ensures Sort(pairs, Before) == pairs
  {
    if pairs != [] {
      var rest := pairs[1..];
      forall i, j | 0 <= i < j < |rest| ensures rest[i].tsc < rest[j].tsc { assert rest[i] == pairs[i + 1] && rest[j] == pairs[j + 1]; }
      SortedStays(rest);
      assert rest != [] ==> pairs[0].tsc < pairs[1].tsc;
    }
  }

  lemma {:induction false} PairsIncreasing(s: Stamps, start: nat, n: nat, skip: set<nat>)
    requires n <= |s.tsc| && start + n <= |s.mono| && forall i, j | 0 <= i < j < |s.tsc| :: s.tsc[i] < s.tsc[j]
    ensures Increasing(PairsOf(s, start, n, skip))
    ensures forall p | p in PairsOf(s, start, n, skip) :: n > 0 && p.tsc <= s.tsc[n - 1]
  {
    if n > 0 {
      PairsIncreasing(s, start, n - 1, skip);
      var init := PairsOf(s, start, n - 1, skip);
      forall i | 0 <= i < |init| ensures init[i].tsc < s.tsc[n - 1] { assert init[i] in init; }
    }
  }

  /** The map built from anchors matched without a problem keeps to the sampler's rate between any
      two values it converts. */
  lemma MatchedMapKeepsRate(s: Stamps, start: nat, pairs: seq<Pair>, suspects: seq<Suspect>, x: int, y: int)
    requires Matched(s, start, pairs, suspects) && x <= y && forall i, j | 0 <= i < j < |s.tsc| :: s.tsc[i] < s.tsc[j]
    requires Mono(Build(pairs), x).Some? && Mono(Build(pairs), y).Some?
    ensures Build(pairs) == pairs && Increasing(pairs)
    ensures RateKept(pairs, s.slope, x, y)
  {
    hide Mono, RateKept, Near;
    PairsIncreasing(s, start, |s.tsc|, Indices(suspects));
    SortedStays(pairs);
    MatchedChained(s, start, pairs, suspects);
    KeepsRate(pairs, s.slope, x, y);
  }
}
