/** tools/latency_hold.py: the Dynamixel Protocol 2.0 ping packet, its CRC-16, and the
    classification of the bytes a window received. */
module PingProtocol {
  type Bytes = seq<bv8>

  // The register operations, kept apart so that each law is about one of them.
  function Xor(x: bv16, y: bv16): bv16 { x ^ y }

  function Double(x: bv16): bv16 { x << 1 }

  predicate TopSet(x: bv16) { x & 0x8000 != 0 }

  function Top(b: bv8): bv16 { (b as bv16) << 8 }

  function Low(b: bv8): bv16 { b as bv16 }

  // One shift of the CRC register (polynomial 0x8005).
  function Shift(crc: bv16): bv16 {
    if TopSet(crc) then Xor(Double(crc), 0x8005) else Double(crc)
  }

  function Shifts(crc: bv16, n: nat): bv16 {
    if n == 0 then crc else Shift(Shifts(crc, n - 1))
  }

  function Feed(crc: bv16, b: bv8): bv16 {
    Shifts(Xor(crc, Top(b)), 8)
  }

  function FeedAll(crc: bv16, data: Bytes): bv16 {
    if data == [] then crc else Feed(FeedAll(crc, data[..|data| - 1]), data[|data| - 1])
  }

  function Crc(data: Bytes): bv16 {
    FeedAll(0, data)
  }

  method Crc16(data: Bytes) returns (crc: bv16)
    ensures crc == Crc(data)
  {
    hide Shift, Top, Xor;
    crc := 0;
    var i := 0;
    while i < |data|
      invariant 0 <= i <= |data| && crc == Crc(data[..i])
    {
      ghost var before := crc;
      crc := Xor(crc, Top(data[i]));
      var k := 0;
      while k < 8
        invariant 0 <= k <= 8 && crc == Shifts(Xor(before, Top(data[i])), k)
      {
        crc := Shift(crc);
        k := k + 1;
      }
      assert data[..i + 1][..i] == data[..i];
      i := i + 1;
    }
    assert data[..i] == data;
  }

  lemma XorCancels(x: bv16, y: bv16, t: bv16)
    requires Xor(x, t) == Xor(y, t)
    ensures x == y
  {
  }

  lemma XorLaws(x: bv16, y: bv16, z: bv16)
    ensures Xor(x, y) == Xor(y, x) && Xor(Xor(x, y), z) == Xor(x, Xor(y, z)) && Xor(Xor(x, y), y) == x
  {
  }

  lemma DoubleInjective(x: bv16, y: bv16)
    requires Double(x) == Double(y) && TopSet(x) == TopSet(y)
    ensures x == y
  {
  }

  // The polynomial is odd, so what it is added to comes out odd.
  lemma ShiftParity(x: bv16, y: bv16)
    ensures Xor(Double(x), 0x8005) != Double(y)
  {
  }

  lemma DoubleLinear(x: bv16, y: bv16)
    ensures Double(Xor(x, y)) == Xor(Double(x), Double(y))
  {
  }

  lemma TopBit(x: bv16)
    ensures x & 0x8000 == 0 || x & 0x8000 == 0x8000
  {
  }

  lemma TopBitXor(x: bv16, y: bv16)
    ensures (x ^ y) & 0x8000 == (x & 0x8000) ^ (y & 0x8000)
  {
  }

  lemma TopLinear(x: bv16, y: bv16)
    ensures TopSet(Xor(x, y)) <==> TopSet(x) != TopSet(y)
  {
    TopBit(x);
    TopBit(y);
    TopBitXor(x, y);
  }

  lemma DoubleBelow(x: bv16, m: bv16)
    requires x < m <= 0x8000
    ensures !TopSet(x) && (m < 0x8000 ==> Double(x) < m + m)
  {
  }

  lemma TopIsRaised(b: bv8)
    ensures Low(b) < 0x100
    ensures Top(b) == Double(Double(Double(Double(Double(Double(Double(Double(Low(b)))))))))
  {
  }

  lemma HalvesInjective(a: bv8, b: bv8, c: bv8, d: bv8)
    requires Xor(Top(a), Low(b)) == Xor(Top(c), Low(d))
    ensures a == c && b == d
  {
  }

  lemma ShiftInjective(x: bv16, y: bv16)
    requires Shift(x) == Shift(y)
    ensures x == y
  {
    hide Xor, Double, TopSet;
    ShiftParity(x, y);
    ShiftParity(y, x);
    if TopSet(x) && TopSet(y) { XorCancels(Double(x), Double(y), 0x8005); }
    if TopSet(x) == TopSet(y) { DoubleInjective(x, y); }
  }

  lemma ShiftLinear(x: bv16, y: bv16)
    ensures Shift(Xor(x, y)) == Xor(Shift(x), Shift(y))
  {
    hide Xor, Double, TopSet;
    DoubleLinear(x, y);
    TopLinear(x, y);
    var d, e, p := Double(x), Double(y), 0x8005;
    XorLaws(d, p, Xor(e, p));
    XorLaws(p, e, p);
    XorLaws(e, p, p);
    XorLaws(d, p, e);
    XorLaws(d, e, p);
    XorLaws(e, p, d);
    XorLaws(p, d, e);
  }

  lemma {:induction false} ShiftsInjective(x: bv16, y: bv16, n: nat)
    requires Shifts(x, n) == Shifts(y, n)
    ensures x == y
  {
    hide Shift;
    if n > 0 {
      ShiftInjective(Shifts(x, n - 1), Shifts(y, n - 1));
      ShiftsInjective(x, y, n - 1);
    }
  }

  lemma {:induction false} ShiftsLinear(x: bv16, y: bv16, n: nat)
    ensures Shifts(Xor(x, y), n) == Xor(Shifts(x, n), Shifts(y, n))
  {
    hide Shift, Xor;
    if n > 0 {
      ShiftsLinear(x, y, n - 1);
      ShiftLinear(Shifts(x, n - 1), Shifts(y, n - 1));
    }
  }

  lemma FeedInjective(x: bv16, y: bv16, b: bv8)
    requires Feed(x, b) == Feed(y, b)
    ensures x == y
  {
    hide Shifts, Top, Xor;
    ShiftsInjective(Xor(x, Top(b)), Xor(y, Top(b)), 8);
    XorCancels(x, y, Top(b));
  }

  lemma {:induction false} FeedAllInjective(x: bv16, y: bv16, data: Bytes)
    requires FeedAll(x, data) == FeedAll(y, data)
    ensures x == y
  {
    hide Feed;
    if data != [] {
      var init := data[..|data| - 1];
      FeedInjective(FeedAll(x, init), FeedAll(y, init), data[|data| - 1]);
      FeedAllInjective(x, y, init);
    }
  }

  lemma {:induction false} FeedAllSplit(crc: bv16, a: Bytes, b: Bytes)
    ensures FeedAll(crc, a + b) == FeedAll(FeedAll(crc, a), b)
  {
    hide Feed;
    if b == [] {
      assert a + b == a;
    } else {
      FeedAllSplit(crc, a, b[..|b| - 1]);
      assert (a + b)[..|a + b| - 1] == a + b[..|b| - 1];
    }
  }

  // A value below the polynomial's reach is only doubled: eight shifts raise a byte to the top.
  lemma ShiftPlain(x: bv16, m: bv16) returns (y: bv16)
    requires x < m <= 0x8000
    ensures y == Shift(x) == Double(x) && (m < 0x8000 ==> y < m + m)
  {
    DoubleBelow(x, m);
    y := Double(x);
  }

  lemma ShiftsRaise(b: bv8)
    ensures Shifts(Low(b), 8) == Top(b)
  {
    hide Shift, Double, Low, Top;
    TopIsRaised(b);
    var x := Low(b);
    var x1 := ShiftPlain(x, 0x100);
    var x2 := ShiftPlain(x1, 0x200);
    var x3 := ShiftPlain(x2, 0x400);
    var x4 := ShiftPlain(x3, 0x800);
    var x5 := ShiftPlain(x4, 0x1000);
    var x6 := ShiftPlain(x5, 0x2000);
    var x7 := ShiftPlain(x6, 0x4000);
    var x8 := ShiftPlain(x7, 0x8000);
    ShiftOnce(x, 0);
    ShiftOnce(x, 1);
    ShiftOnce(x, 2);
    ShiftOnce(x, 3);
    ShiftOnce(x, 4);
    ShiftOnce(x, 5);
    ShiftOnce(x, 6);
    ShiftOnce(x, 7);
    assert Shifts(x, 0) == x by { NoShift(x); }
  }

  lemma NoShift(x: bv16)
    ensures Shifts(x, 0) == x
  {
  }

  lemma ShiftOnce(x: bv16, n: nat)
    ensures Shifts(x, n + 1) == Shift(Shifts(x, n))
  {
  }

  // Feeding two bytes is shifting both into the register at once.
  lemma FeedTwo(s: bv16, a: bv8, b: bv8)
    ensures Feed(Feed(s, a), b) == Shifts(Shifts(Xor(s, Xor(Top(a), Low(b))), 8), 8)
  {
    hide Shifts, Top, Low, Xor;
    var x := Xor(s, Top(a));
    ShiftsLinear(x, Low(b), 8);
    ShiftsRaise(b);
    XorLaws(s, Top(a), Low(b));
  }

  /** Two messages that differ only within two adjacent bytes have different CRCs. */
  lemma CrcDetectsBurst(before: Bytes, a: bv8, b: bv8, a': bv8, b': bv8, after: Bytes)
    requires Crc(before + [a, b] + after) == Crc(before + [a', b'] + after)
    ensures a == a' && b == b'
  {
    hide Feed, Shifts, Top, Low, Xor;
    var s := FeedAll(0, before);
    FeedAllSplit(0, before + [a, b], after);
    FeedAllSplit(0, before + [a', b'], after);
    FeedAllInjective(FeedAll(0, before + [a, b]), FeedAll(0, before + [a', b']), after);
    FedPair(before, a, b);
    FedPair(before, a', b');
    FeedTwo(s, a, b);
    FeedTwo(s, a', b');
    var v, w := Xor(s, Xor(Top(a), Low(b))), Xor(s, Xor(Top(a'), Low(b')));
    ShiftsInjective(Shifts(v, 8), Shifts(w, 8), 8);
    ShiftsInjective(v, w, 8);
    XorLaws(s, Xor(Top(a), Low(b)), 0);
    XorLaws(s, Xor(Top(a'), Low(b')), 0);
    XorCancels(Xor(Top(a), Low(b)), Xor(Top(a'), Low(b')), s);
    HalvesInjective(a, b, a', b');
  }

  lemma FedPair(before: Bytes, a: bv8, b: bv8)
    ensures FeedAll(0, before + [a, b]) == Feed(Feed(FeedAll(0, before), a), b)
  {
    hide Feed;
    assert (before + [a, b])[..|before| + 1] == before + [a];
    assert (before + [a])[..|before|] == before;
  }

  // Little-endian pairs.
  function LowHalf(w: bv16): bv8 { (w & 0xff) as bv8 }

  function HighHalf(w: bv16): bv8 { (w >> 8) as bv8 }

  function Joined(lo: bv8, hi: bv8): bv16 { (lo as bv16) | ((hi as bv16) << 8) }

  lemma HalvesJoin(w: bv16)
    ensures Joined(LowHalf(w), HighHalf(w)) == w
  {
  }

  lemma JoinedHalves(lo: bv8, hi: bv8)
    ensures LowHalf(Joined(lo, hi)) == lo && HighHalf(Joined(lo, hi)) == hi
  {
  }

  // A packet's body with its CRC after it.
  function Sealed(body: Bytes): (packet: Bytes)
    ensures |packet| == |body| + 2 && packet[..|body|] == body
  {
    body + [LowHalf(Crc(body)), HighHalf(Crc(body))]
  }

  predicate Intact(packet: Bytes)
    requires |packet| >= 2
  {
    Crc(packet[..|packet| - 2]) == Joined(packet[|packet| - 2], packet[|packet| - 1])
  }

  /** A packet's CRC is good exactly when sealing its body gives the packet back. */
  lemma IntactIffSealed(packet: Bytes)
    requires |packet| >= 2
    ensures Intact(packet) <==> packet == Sealed(packet[..|packet| - 2])
  {
    hide Crc, LowHalf, HighHalf, Joined;
    var body := packet[..|packet| - 2];
    HalvesJoin(Crc(body));
    JoinedHalves(packet[|packet| - 2], packet[|packet| - 1]);
  }

  const HEADER: Bytes := [0xFF, 0xFF, 0xFD, 0x00]
  const STATUS: bv8 := 0x55

  function PingPacket(id: bv8): Bytes {
    Sealed(HEADER + [id, 0x03, 0x00, 0x01])
  }

  // The status packet a servo answers a ping with.
  function StatusPacket(id: bv8, error: bv8, modelLow: bv8, modelHigh: bv8, firmware: bv8): Bytes {
    Sealed(HEADER + [id, 0x07, 0x00, STATUS, error, modelLow, modelHigh, firmware])
  }

  predicate HeaderAt(data: Bytes, i: nat) {
    i + 4 <= |data| && data[i..i + 4] == HEADER
  }

  // The first header from i on; None is the source's -1.
  function FindHeader(data: Bytes, i: nat): (at: int)
    requires i <= |data|
    ensures at >= 0 ==> i <= at && HeaderAt(data, at) && forall k | i <= k < at :: !HeaderAt(data, k)
    ensures at < 0 ==> forall k | i <= k :: !HeaderAt(data, k)
    decreases |data| - i
  {
    if HeaderAt(data, i) then i else if i == |data| then -1 else FindHeader(data, i + 1)
  }

  // The longest start of a header, of at most n bytes, that the data ends with.
  function Tail(data: Bytes, n: nat): nat
    requires n <= 3 && n <= |data|
  {
    if n == 0 || data[|data| - n..] == HEADER[..n] then n else Tail(data, n - 1)
  }

  datatype Verdict = Reply | Partial | Corrupt | NoPayload

  function Classify(data: Bytes, id: bv8): Verdict {
    if data == [] then NoPayload
    else
      var at := FindHeader(data, 0);
      if at < 0 then
        if Tail(data, if |data| < 3 then |data| else 3) == |data| then Partial else Corrupt
      else ClassifyPacket(data[at..], id)
  }

  function ClassifyPacket(rest: Bytes, id: bv8): Verdict
    requires HeaderAt(rest, 0)
  {
    if |rest| < 7 then Partial
    else
      var length := rest[5] as nat + 256 * rest[6] as nat;
      if |rest| < 7 + length then Partial
      else
        var packet := rest[..7 + length];
        if !Intact(packet) then Corrupt
        else
          NeverEmpty(packet);
          if packet[4] != id || packet[7] != STATUS || length != 7 then Corrupt else Reply
  }

  lemma Eight(x: bv16)
    ensures Shifts(x, 8) == Shift(Shift(Shift(Shift(Shift(Shift(Shift(Shift(x))))))))
  {
    hide Shift;
    NoShift(x);
    ShiftOnce(x, 0);
    ShiftOnce(x, 1);
    ShiftOnce(x, 2);
    ShiftOnce(x, 3);
    ShiftOnce(x, 4);
    ShiftOnce(x, 5);
    ShiftOnce(x, 6);
    ShiftOnce(x, 7);
  }

  lemma HeaderFed()
    ensures Feed(0, 0xFF) == 0x0202 && Feed(0x0202, 0xFF) == 0x800d
    ensures Feed(0x800d, 0xFD) == 0x0c0e && Feed(0x0c0e, 0x00) == 0x0e28
  {
    hide Shifts;
    Eight(Xor(0, Top(0xFF)));
    Eight(Xor(0x0202, Top(0xFF)));
    Eight(Xor(0x800d, Top(0xFD)));
    Eight(Xor(0x0c0e, Top(0x00)));
  }

  lemma FedOne(before: Bytes, b: bv8)
    ensures FeedAll(0, before + [b]) == Feed(FeedAll(0, before), b)
  {
    hide Feed;
    assert (before + [b])[..|before|] == before;
  }

  lemma HeaderCrc(id: bv8)
    ensures Crc(HEADER + [id]) == Feed(0x0e28, id)
  {
    hide Feed, FeedAll;
    HeaderFed();
    var none: Bytes, one: Bytes, two: Bytes, three: Bytes := [], [0xFF], [0xFF, 0xFF], [0xFF, 0xFF, 0xFD];
    FedOne(none, 0xFF);
    FedOne(one, 0xFF);
    FedOne(two, 0xFD);
    FedOne(three, 0x00);
    FedOne(HEADER, id);
    assert none + [0xFF] == one && one + [0xFF] == two && two + [0xFD] == three && three + [0x00] == HEADER;
    assert FeedAll(0, []) == 0 by { NothingFed(); }
  }

  lemma NothingFed()
    ensures FeedAll(0, []) == 0
  {
  }

  // The header's CRC and a sixth byte shift to zero for no id.
  lemma NeverZero(id: bv8)
    ensures Feed(0x0e28, id) != 0
  {
    hide Shifts;
    Eight(0);
    if Feed(0x0e28, id) == 0 {
      assert Shift(0) == 0;
      ShiftsInjective(Xor(0x0e28, Top(id)), 0, 8);
      LowHalfKept(id);
    }
  }

  lemma LowHalfKept(id: bv8)
    ensures Xor(0x0e28, Top(id)) != 0
  {
  }
  /** No good CRC closes a packet of length 0: byte 7 of an intact packet is always there. */
  lemma NeverEmpty(packet: Bytes)
    requires |packet| >= 7 && HeaderAt(packet, 0) && Intact(packet)
    requires |packet| == 7 + (packet[5] as nat + 256 * packet[6] as nat)
    ensures |packet| > 7
  {
    hide Crc, Intact;
    if |packet| == 7 {
      ZeroByte(packet[5]);
      ZeroByte(packet[6]);
      EmptyNotIntact(packet);
    }
  }

  lemma EmptyNotIntact(packet: Bytes)
    requires |packet| == 7 && HeaderAt(packet, 0) && packet[5] == 0 && packet[6] == 0
    ensures !Intact(packet)
  {
    hide Crc, Feed, Joined;
    assert packet[..5] == HEADER + [packet[4]];
    HeaderCrc(packet[4]);
    NeverZero(packet[4]);
    NothingJoined();
  }

  lemma NothingJoined()
    ensures Joined(0, 0) == 0
  {
  }

  lemma ZeroByte(b: bv8)
    requires b as nat == 0
    ensures b == 0
  {
  }

  // A ping reply from the servo, as found in a window: the first header starts its packet.
  ghost predicate HoldsReply(data: Bytes, id: bv8) {
    exists at: nat, error: bv8, lo: bv8, hi: bv8, firmware: bv8 ::
      FirstHeader(data, at) && StartsWith(data, at, StatusPacket(id, error, lo, hi, firmware))
  }

  ghost predicate FirstHeader(data: Bytes, at: nat) {
    HeaderAt(data, at) && forall k | 0 <= k < at :: !HeaderAt(data, k)
  }

  ghost predicate StartsWith(data: Bytes, at: nat, packet: Bytes) {
    at + |packet| <= |data| && data[at..at + |packet|] == packet
  }

  lemma StatusIntact(packet: Bytes, id: bv8)
    requires |packet| == 14 && HeaderAt(packet, 0)
    ensures Intact(packet) && packet[4] == id && packet[5] == 7 && packet[6] == 0 && packet[7] == STATUS
       <==> packet == StatusPacket(id, packet[8], packet[9], packet[10], packet[11])
  {
    hide Crc, LowHalf, HighHalf, Intact;
    IntactIffSealed(packet);
    assert packet[..4] == HEADER;
    assert packet[5] == 7 && packet[6] == 0 && packet[7] == STATUS && packet[4] == id ==>
      packet[..12] == HEADER + [id, 0x07, 0x00, STATUS, packet[8], packet[9], packet[10], packet[11]];
    var status := StatusPacket(id, packet[8], packet[9], packet[10], packet[11]);
    assert status[..12] == HEADER + [id, 0x07, 0x00, STATUS, packet[8], packet[9], packet[10], packet[11]];
  }

  lemma SevenIs(lo: bv8, hi: bv8)
    ensures lo as nat + 256 * hi as nat == 7 <==> lo == 7 && hi == 0
  {
  }

  lemma PacketIsReply(rest: Bytes, id: bv8)
    requires HeaderAt(rest, 0)
    ensures ClassifyPacket(rest, id) == Reply
       <==> |rest| >= 14 && rest[..14] == StatusPacket(id, rest[8], rest[9], rest[10], rest[11])
  {
    hide Intact, StatusPacket, Crc;
    if |rest| >= 7 { SevenIs(rest[5], rest[6]); }
    if |rest| >= 14 {
      var packet := rest[..14];
      assert HeaderAt(packet, 0) by { assert packet[0..4] == rest[0..4]; }
      StatusIntact(packet, id);
      if packet == StatusPacket(id, rest[8], rest[9], rest[10], rest[11]) { assert rest[..7 + 7] == packet; }
    }
  }

  /** A window is classified as a reply exactly when the first header in it starts an intact
      status packet from the servo, whatever comes before and after. */
  lemma ReplyIff(data: Bytes, id: bv8)
    ensures Classify(data, id) == Reply <==> HoldsReply(data, id)
  {
    hide ClassifyPacket, StatusPacket;
    var at := FindHeader(data, 0);
    if at >= 0 {
      assert FirstHeader(data, at);
      var rest := data[at..];
      PacketIsReply(rest, id);
      if |rest| >= 14 {
        assert data[at..at + 14] == rest[..14];
        assert rest[..14] == StatusPacket(id, rest[8], rest[9], rest[10], rest[11]) ==>
            StartsWith(data, at, StatusPacket(id, rest[8], rest[9], rest[10], rest[11]));
      }
    }
    if HoldsReply(data, id) { ReplyFound(data, id); }
  }

  lemma ReplyFound(data: Bytes, id: bv8)
    requires HoldsReply(data, id)
    ensures var at := FindHeader(data, 0);
      && at >= 0 && |data| - at >= 14 && HeaderAt(data[at..], 0)
      && data[at..][..14] == StatusPacket(id, data[at..][8], data[at..][9], data[at..][10], data[at..][11])
  {
    hide StatusPacket, FirstHeader, HeaderAt;
    var a: nat, error: bv8, lo: bv8, hi: bv8, firmware: bv8 :|
      FirstHeader(data, a) && StartsWith(data, a, StatusPacket(id, error, lo, hi, firmware));
    FirstIsFound(data, a);
    StatusAtFront(data[a..], id, error, lo, hi, firmware);
  }

  lemma FirstIsFound(data: Bytes, a: nat)
    requires FirstHeader(data, a)
    ensures FindHeader(data, 0) == a
  {
  }

  lemma StatusAtFront(rest: Bytes, id: bv8, error: bv8, lo: bv8, hi: bv8, firmware: bv8)
    requires StartsWith(rest, 0, StatusPacket(id, error, lo, hi, firmware))
    ensures |rest| >= 14 && HeaderAt(rest, 0) && rest[..14] == StatusPacket(id, rest[8], rest[9], rest[10], rest[11])
  {
    hide StatusPacket;
    StatusParts(id, error, lo, hi, firmware);
    var p := rest[..14];
    assert p == StatusPacket(id, error, lo, hi, firmware);
    assert rest[8] == p[8] && rest[9] == p[9] && rest[10] == p[10] && rest[11] == p[11] && rest[0..4] == p[0..4];
  }

  lemma StatusParts(id: bv8, error: bv8, lo: bv8, hi: bv8, firmware: bv8)
    ensures var p := StatusPacket(id, error, lo, hi, firmware);
            |p| == 14 && HeaderAt(p, 0) && p[8] == error && p[9] == lo && p[10] == hi && p[11] == firmware
  {
    var p := StatusPacket(id, error, lo, hi, firmware);
    assert p[..12] == HEADER + [id, 0x07, 0x00, STATUS, error, lo, hi, firmware];
    assert p[8] == p[..12][8] && p[9] == p[..12][9] && p[10] == p[..12][10] && p[11] == p[..12][11];
    assert p[0..4] == HEADER;
  }

  // A packet whose length is not all there, or which its length says is longer.
  ghost predicate CutShort(rest: Bytes) {
    |rest| < 7 || |rest| < 7 + rest[5] as nat + 256 * rest[6] as nat
  }

  // The start of a header, or a first header whose packet is cut short.
  ghost predicate HoldsStart(data: Bytes) {
    || (0 < |data| < 4 && data == HEADER[..|data|])
    || (exists at: nat :: FirstHeader(data, at) && CutShort(data[at..]))
  }

  /** A window has no payload exactly when it is empty, and is partial exactly when it holds the
      start of a packet; everything else that is no reply is corrupt. */
  lemma PartialIff(data: Bytes, id: bv8)
    ensures Classify(data, id) == Partial <==> HoldsStart(data)
    ensures Classify(data, id) == NoPayload <==> data == []
  {
    hide Intact, Tail;
    var at := FindHeader(data, 0);
    if at >= 0 {
      assert FirstHeader(data, at);
    } else {
      TailIsAll(data);
    }
    forall a: nat | FirstHeader(data, a) ensures a == at { FirstIsFound(data, a); }
  }

  lemma TailIsAll(data: Bytes)
    ensures Tail(data, if |data| < 3 then |data| else 3) == |data| <==> |data| < 4 && data == HEADER[..|data|]
  {
    TailBelow(data, if |data| < 3 then |data| else 3);
    if |data| < 4 { assert data[0..] == data; }
  }

  lemma {:induction false} TailBelow(data: Bytes, n: nat)
    requires n <= 3 && n <= |data|
    ensures Tail(data, n) <= n
    ensures Tail(data, n) == n <==> data[|data| - n..] == HEADER[..n]
  {
    if n > 0 { TailBelow(data, n - 1); }
  }

  /** The program's own ping, echoed, is not taken for a reply. */
  lemma EchoIsNotAReply(id: bv8)
    ensures Classify(PingPacket(id), id) == Corrupt
  {
    hide Crc, LowHalf, HighHalf;
    var p := PingPacket(id);
    var body := HEADER + [id, 0x03, 0x00, 0x01];
    assert p[..8] == body;
    assert p[0..4] == HEADER && HeaderAt(p, 0);
    assert p[5] == p[..8][5] && p[6] == p[..8][6] && p[7] == p[..8][7];
    IntactIffSealed(p);
    assert p[0..] == p;
  }
}
