/** A bus of servos whose every transaction may lose its request or its reply. */
module ServoBus {
  import opened ControlTable

  // A servo's table registers, each by the value it stands for.
  type Registers = m: map<Parameter, int> | forall p: Parameter :: p in m
    witness map p: Parameter | 0 <= p < TABLE_SIZE :: 0

  datatype Servo = Servo(model: nat, firmware: nat, torque: nat, regs: Registers)

  type Servos = map<nat, Servo>

  // Every register stands for a value it can hold.
  ghost predicate InRange(s: Servos) {
    forall id, p: Parameter {:trigger Fits(p, s[id].regs[p])} | id in s :: Fits(p, s[id].regs[p])
  }

  // What becomes of one transaction: whether its reply arrives, whether a write takes
  // effect, and what a write of operating_mode leaves in the registers it resets.
  datatype Fate = Fate(ok: bool, applied: bool, reset: Parameter -> int)

  // One write request: the register, and the value its bytes stand for.
  datatype Request = Request(id: nat, p: Parameter, value: int)

  function ResetRegs(regs: Registers, reset: Parameter -> int): Registers {
    map q | q in regs :: if IsModeReset(q) then Stored(q, reset(q)) else regs[q]
  }

  function AfterWrite(s: Servo, p: Parameter, value: int, fate: Fate): Servo {
    s.(regs := (if p == OPERATING_MODE then ResetRegs(s.regs, fate.reset) else s.regs)[p := value])
  }

  // Whether a write of p to servo id may change register q of servo k.
  predicate Disturbs(id: nat, p: Parameter, k: nat, q: Parameter) {
    k == id && (q == p || (p == OPERATING_MODE && IsModeReset(q)))
  }

  predicate Holds(s: Servos, id: nat, p: Parameter, value: int) {
    id in s && s[id].regs[p] == value
  }

  // A write of p to servo id changed at most p and, for operating_mode, what it resets.
  ghost predicate Touched(s: Servos, s': Servos, id: nat, p: Parameter) {
    && SameServos(s, s')
    && forall k, q: Parameter | k in s && !Disturbs(id, p, k, q) :: Holds(s', k, q, s[k].regs[q])
  }

  ghost predicate SameServos(s: Servos, s': Servos) {
    && s'.Keys == s.Keys
    && forall k | k in s :: && s'[k].model == s[k].model && s'[k].firmware == s[k].firmware
                            && s'[k].torque == s[k].torque
  }

  lemma AfterWriteRegisters(s: Servo, p: Parameter, value: int, fate: Fate)
    ensures var s' := AfterWrite(s, p, value, fate);
            && s'.regs[p] == value
            && (s'.model, s'.firmware, s'.torque) == (s.model, s.firmware, s.torque)
            && forall q: Parameter | q != p && !(p == OPERATING_MODE && IsModeReset(q)) :: s'.regs[q] == s.regs[q]
  {
  }

  lemma UpdateTouches(s: Servos, id: nat, p: Parameter, servo: Servo)
    requires id in s
    requires (servo.model, servo.firmware, servo.torque) == (s[id].model, s[id].firmware, s[id].torque)
    requires forall q: Parameter | !Disturbs(id, p, id, q) :: servo.regs[q] == s[id].regs[q]
    ensures Touched(s, s[id := servo], id, p)
  {
  }

  lemma UpdateInRange(s: Servos, id: nat, p: Parameter, word: nat, fate: Fate)
    requires id in s && InRange(s)
    ensures InRange(s[id := AfterWrite(s[id], p, Stored(p, word), fate)])
  {
    var s' := s[id := AfterWrite(s[id], p, Stored(p, word), fate)];
    forall k, q: Parameter | k in s' ensures Fits(q, s'[k].regs[q]) {
      assert Fits(q, s[k].regs[q]);
      ReadbackExact(p, word);
      ReadbackExact(q, fate.reset(q));
    }
  }

  class Bus {
    var servos: Servos
    const fate: nat -> Fate
    var clock: nat
    ghost var sent: seq<Request>   // write requests issued
    ghost var losses: nat   // transactions that were not carried out and acknowledged

    constructor (servos: Servos, fate: nat -> Fate)
      ensures this.servos == servos && this.fate == fate && sent == [] && losses == 0
    {
      this.servos, this.fate := servos, fate;
      clock, sent, losses := 0, [], 0;
    }

    // One read transaction with a servo: whether its reply arrives.
    method Exchange(id: nat) returns (ok: bool)
      modifies this`clock, this`losses
      ensures losses >= old(losses) && clock == old(clock) + 1
      ensures ok ==> id in servos
      ensures !ok && id in servos ==> losses > old(losses)
    {
      ok := id in servos && fate(clock).ok;
      if !ok { losses := losses + 1; }
      clock := clock + 1;
    }

    method Write(id: nat, p: Parameter, data: seq<Byte>) returns (ok: bool)
      requires |data| == Len(p) && InRange(servos)
      modifies this
      ensures InRange(servos)
      ensures sent == old(sent) + [Request(id, p, Stored(p, DecodeBytes(data)))] && losses >= old(losses)
      ensures clock == old(clock) + 1
      ensures Touched(old(servos), servos, id, p) && servos.Keys == old(servos).Keys
      ensures id in servos ==> servos[id].regs[p] == Stored(p, DecodeBytes(data)) || losses > old(losses)
      ensures ok ==> id in servos
      ensures !ok && id in servos ==> losses > old(losses)
    {
      var f := fate(clock);
      ok := id in servos && f.ok;
      if id in servos && f.applied {
        var servo := AfterWrite(servos[id], p, Stored(p, DecodeBytes(data)), f);
        AfterWriteRegisters(servos[id], p, Stored(p, DecodeBytes(data)), f);
        UpdateTouches(servos, id, p, servo);
        UpdateInRange(servos, id, p, DecodeBytes(data), f);
        servos := servos[id := servo];
      }
      if !ok || !f.applied { losses := losses + 1; }
      clock, sent := clock + 1, sent + [Request(id, p, Stored(p, DecodeBytes(data)))];
    }
  }
}

/** apps/bus/dxl_parameters.hpp: `apply`, all its preflight reads before its first write, each
    write read back, and every original rewritten when one fails. */
module ParameterLoader {
  import opened Basics
  import opened ControlTable
  import opened ServoBus
  import Sorting

  datatype ParameterValue = ParameterValue(p: Parameter, value: int)

  datatype MotorRecord = MotorRecord(id: nat, model: nat, firmware: nat, parameters: seq<ParameterValue>)

  datatype Operation = Operation(id: nat, p: Parameter, desired: int, original: int)

  datatype Error =
    | PingFailed(id: nat) | WrongModel(id: nat) | FirmwareUnreadable(id: nat)
    | TorqueUnreadable(id: nat) | TorqueEnabled(id: nat)
    | UnsupportedByModel(id: nat, p: Parameter) | FirmwareTooOld(id: nat, p: Parameter)
    | CannotRead(id: nat, p: Parameter) | DumpOnlyDiffers(id: nat, p: Parameter)
    | Inverted(id: nat, lower: Parameter) | CannotWrite(id: nat, p: Parameter)
    | ReadbackDiffers(id: nat, p: Parameter)

  datatype ApplyResult = ApplyResult(ok: bool, changedCount: nat, unchangedCount: nat, rollbackAttempted: bool,
                                     rollbackOk: bool, errors: seq<Error>)

  // The dumps the parser produces: motor ids are unique, and so are a motor's parameters.
  predicate WellFormed(dump: seq<MotorRecord>) {
    && (forall i, j | 0 <= i < j < |dump| :: dump[i].id != dump[j].id)
    && (forall m | m in dump :: DistinctParameters(m.parameters))
  }

  predicate DistinctParameters(ps: seq<ParameterValue>) {
    forall i, j | 0 <= i < j < |ps| :: ps[i].p != ps[j].p
  }

  // ----- Single registers -----

  method ReadParameter(io: Bus, id: nat, p: Parameter) returns (error: Option<Error>, value: int)
    requires InRange(io.servos)
    modifies io`clock, io`losses
    ensures io.losses >= old(io.losses) && io.servos == old(io.servos) && io.clock == old(io.clock) + 1
    ensures error.None? ==> id in io.servos && value == io.servos[id].regs[p]
    ensures error.Some? ==> error.value == CannotRead(id, p)
    ensures error.Some? && id in io.servos ==> io.losses > old(io.losses)
  {
    var ok := io.Exchange(id);
    if !ok { return Some(CannotRead(id, p)), 0; }
    value := DecodeReply(p, EncodeBytes(Unsigned32(io.servos[id].regs[p]), Len(p)));
    KeptBytes(p, Unsigned32(io.servos[id].regs[p]));
    assert Fits(p, io.servos[id].regs[p]);
    ReadbackExact(p, io.servos[id].regs[p]);
    error := None;
  }

  method DecodeReply(p: Parameter, data: seq<Byte>) returns (value: int)
    requires |data| == Len(p)
    ensures value == Value(p, DecodeBytes(data))
  {
    var raw: nat := 0;
    var i := Len(p);
    while i > 0
      invariant 0 <= i <= Len(p) && raw == DecodeBytes(data[i..])
    {
      i := i - 1;
      assert data[i..][1..] == data[i + 1..];
      raw := raw * 256 + data[i];
    }
    assert data[0..] == data;
    value := if Signed(p) && raw >= 0x8000_0000 then raw - 0x1_0000_0000 else raw;
  }

  lemma BytesStore(p: Parameter, value: int)
    ensures Stored(p, DecodeBytes(EncodeBytes(Unsigned32(value), Len(p)))) == Stored(p, value)
  {
    KeptBytes(p, Unsigned32(value));
  }

  // The low bytes of a value, as the write packet carries them.
  method FillBytes(p: Parameter, value: int) returns (data: seq<Byte>)
    ensures |data| == Len(p) && Stored(p, DecodeBytes(data)) == Stored(p, value)
  {
    var buffer := new Byte[4];
    var raw, len := Unsigned32(value), Len(p);
    var i := 0;
    while i < len
      invariant 0 <= i <= len
      invariant forall k | 0 <= k < i :: buffer[k] == EncodeBytes(raw, len)[k]
    {
      buffer[i] := ShiftBytes(raw, i) % 256;
      EncodedByte(raw, len, i);
      i := i + 1;
    }
    data := buffer[..len];
    assert data == EncodeBytes(raw, len);
    BytesStore(p, value);
  }

  method WriteParameter(io: Bus, id: nat, p: Parameter, value: int) returns (error: Option<Error>)
    requires InRange(io.servos)
    modifies io
    ensures InRange(io.servos) && io.losses >= old(io.losses)
    ensures Touched(old(io.servos), io.servos, id, p) && io.servos.Keys == old(io.servos).Keys
    ensures error.None? ==> id in io.servos && io.servos[id].regs[p] == value
    ensures io.sent == old(io.sent) + [Request(id, p, Stored(p, value))]
    ensures io.clock == old(io.clock) + if error == Some(CannotWrite(id, p)) then 1 else 2
    ensures error.Some? ==> error.value in {CannotWrite(id, p), CannotRead(id, p), ReadbackDiffers(id, p)}
    ensures error.Some? && id in io.servos && Fits(p, value) ==> io.losses > old(io.losses)
  {
    hide Touched, Stored, DecodeBytes, InRange;
    var data := FillBytes(p, value);
    var ok := io.Write(id, p, data);
    if !ok { return Some(CannotWrite(id, p)); }
    var actual;
    error, actual := ReadParameter(io, id, p);
    if error.Some? { return; }
    ReadbackExact(p, value);
    if actual != value { return Some(ReadbackDiffers(id, p)); }
  }

  // ----- What a dump asks for -----

  // The write a request calls for, unless the motor holds the value or must not be written.
  function RequestOperation(s: Servo, id: nat, r: ParameterValue): (op: Option<Operation>)
    ensures op.Some? ==> op.value == Operation(id, r.p, r.value, s.regs[r.p]) && s.regs[r.p] != r.value
  {
    if Loadable(r.p) && s.regs[r.p] != r.value then Some(Operation(id, r.p, r.value, s.regs[r.p])) else None
  }

  // What the first k requests write.
  function Requested(s: Servo, id: nat, ps: seq<ParameterValue>, k: nat): seq<Operation>
    requires k <= |ps|
  {
    if k == 0 then []
    else
      var ops, op := Requested(s, id, ps, k - 1), RequestOperation(s, id, ps[k - 1]);
      if op.Some? then ops + [op.value] else ops
  }

  // How many of the first k requested values the motor already holds.
  function Matching(s: Servo, ps: seq<ParameterValue>, k: nat): nat
    requires k <= |ps|
  {
    if k == 0 then 0
    else Matching(s, ps, k - 1) + if s.regs[ps[k - 1].p] == ps[k - 1].value then 1 else 0
  }

  function Parameters(ops: seq<Operation>): set<Parameter> {
    set i | 0 <= i < |ops| :: ops[i].p
  }

  // Of the first k parameters, those that a mode change resets and ops does not write.
  function Snapshots(s: Servo, id: nat, ops: seq<Operation>, k: nat): seq<Operation>
    requires k <= TABLE_SIZE
  {
    if k == 0 then []
    else
      var p := k - 1;
      var snaps := Snapshots(s, id, ops, p);
      if IsModeReset(p) && p !in Parameters(ops) then snaps + [Operation(id, p, s.regs[p], s.regs[p])] else snaps
  }

  predicate AddrLe(a: Operation, b: Operation) {
    Addr(a.p) <= Addr(b.p)
  }

  // A mode change brings every value it would reset into the plan.
  function Unsorted(s: Servo, m: MotorRecord): seq<Operation> {
    var ops := Requested(s, m.id, m.parameters, |m.parameters|);
    if OPERATING_MODE in Parameters(ops) then ops + Snapshots(s, m.id, ops, TABLE_SIZE) else ops
  }

  function MotorPlan(s: Servo, m: MotorRecord): seq<Operation> {
    Sorting.Sort(Unsorted(s, m), AddrLe)
  }

  function RequestedValue(ps: seq<ParameterValue>, p: Parameter): (r: Option<int>)
    ensures r.None? <==> forall i | 0 <= i < |ps| :: ps[i].p != p
    ensures r.Some? ==> ParameterValue(p, r.value) in ps
  {
    if ps == [] then None
    else if ps[0].p == p then Some(ps[0].value)
    else RequestedValue(ps[1..], p)
  }

  // The value p will have once the motor's requests are carried out.
  function Target(s: Servo, m: MotorRecord, p: Parameter): int
  {
    var r := RequestedValue(m.parameters, p);
    if r.Some? then r.value else s.regs[p]
  }

  predicate Ordered(s: Servo, m: MotorRecord, lower: Parameter, upper: Parameter)
  {
    (RequestedValue(m.parameters, lower).Some? || RequestedValue(m.parameters, upper).Some?) ==>
      Target(s, m, lower) <= Target(s, m, upper)
  }

  predicate ParameterAccepted(s: Servo, r: ParameterValue)
  {
    && SupportsModel(r.p, s.model)
    && s.firmware >= MinFirmware(r.p)
    && (Loadable(r.p) || s.regs[r.p] == r.value)
  }

  ghost predicate MotorAccepted(s: Servos, m: MotorRecord)
  {
    && m.id in s && s[m.id].model == m.model && s[m.id].torque == 0
    && (forall i | 0 <= i < |m.parameters| :: ParameterAccepted(s[m.id], m.parameters[i]))
    && Ordered(s[m.id], m, MIN_VOLTAGE_LIMIT, MAX_VOLTAGE_LIMIT)
    && Ordered(s[m.id], m, MIN_POSITION_LIMIT, MAX_POSITION_LIMIT)
  }

  // What an error before any write is about, and that it holds: of one motor of the dump.
  ghost predicate Justified(s: Servos, dump: seq<MotorRecord>, e: Error, lossy: bool) {
    exists m :: m in dump && JustifiedOf(s, m, e, lossy)
  }

  ghost predicate JustifiedOf(s: Servos, m: MotorRecord, e: Error, lossy: bool) {
    match e
    case PingFailed(id) => id == m.id && (id !in s || lossy)
    case WrongModel(id) => id == m.id && id in s && s[id].model != m.model
    case TorqueEnabled(id) => id == m.id && id in s && s[id].torque != 0
    case FirmwareUnreadable(id) => id == m.id && lossy
    case TorqueUnreadable(id) => id == m.id && lossy
    case CannotRead(id, p) => id == m.id && lossy
    case UnsupportedByModel(id, p) => id == m.id && RequestedValue(m.parameters, p).Some? && !SupportsModel(p, m.model)
    case FirmwareTooOld(id, p) =>
      id == m.id && id in s && RequestedValue(m.parameters, p).Some? && s[id].firmware < MinFirmware(p)
    case DumpOnlyDiffers(id, p) =>
      id == m.id && id in s && !Loadable(p) && exists r :: r in m.parameters && r.p == p && s[id].regs[p] != r.value
    case Inverted(id, lower) =>
      && id == m.id && id in s
      && ((lower == MIN_VOLTAGE_LIMIT && !Ordered(s[id], m, lower, MAX_VOLTAGE_LIMIT))
          || (lower == MIN_POSITION_LIMIT && !Ordered(s[id], m, lower, MAX_POSITION_LIMIT)))
    case _ => false
  }

  lemma RequestedSome(ps: seq<ParameterValue>, r: ParameterValue)
    requires r in ps
    ensures RequestedValue(ps, r.p).Some?
  {
    var i :| 0 <= i < |ps| && ps[i] == r;
    assert ps[i].p == r.p;
  }

  // ----- Preflight: reads only -----

  // How many transactions a motor's preflight takes when nothing stops it: the ping, firmware and
  // torque, every request, the unrequested half of a limit pair, and what a mode change resets.
  ghost function PreflightReads(s: Servo, m: MotorRecord): nat {
    var ops := Requested(s, m.id, m.parameters, |m.parameters|);
    3 + |m.parameters| + PairReads(m, MIN_VOLTAGE_LIMIT, MAX_VOLTAGE_LIMIT) + PairReads(m, MIN_POSITION_LIMIT, MAX_POSITION_LIMIT)
    + if OPERATING_MODE in Parameters(ops) then |Snapshots(s, m.id, ops, TABLE_SIZE)| else 0
  }

  ghost function PairReads(m: MotorRecord, lower: Parameter, upper: Parameter): nat {
    if RequestedValue(m.parameters, lower).Some? == RequestedValue(m.parameters, upper).Some? then 0 else 1
  }

  // After how many transactions a motor is refused before its requests are looked at.
  function StopsAfter(e: Error): nat {
    match e
    case PingFailed(_) => 1
    case WrongModel(_) => 1
    case FirmwareUnreadable(_) => 2
    case TorqueUnreadable(_) => 3
    case TorqueEnabled(_) => 3
    case _ => 0
  }

  predicate Early(e: Error) {
    StopsAfter(e) > 0
  }

  // The values counted as held already are those of the first requests.
  ghost predicate CountedRequests(s: Servo, m: MotorRecord, matching: nat) {
    exists k :: 0 <= k <= |m.parameters| && matching == Matching(s, m.parameters, k)
                && forall i | 0 <= i < k :: ParameterAccepted(s, m.parameters[i])
  }

  // What an error leaves counted: nothing of a motor it comes early for, else its requests so far.
  ghost predicate CountedTo(s: Servos, m: MotorRecord, e: Error, matching: nat) {
    if Early(e) then matching == 0 else m.id in s && CountedRequests(s[m.id], m, matching)
  }

  method CheckOrderedPair(io: Bus, m: MotorRecord, lower: Parameter, upper: Parameter) returns (error: Option<Error>)
    requires m.id in io.servos
    requires InRange(io.servos)
    modifies io`clock, io`losses
    ensures io.losses >= old(io.losses) && io.servos == old(io.servos)
    ensures error.None? ==> Ordered(io.servos[m.id], m, lower, upper)
    ensures error.Some? && io.losses == old(io.losses) ==> !Ordered(io.servos[m.id], m, lower, upper)
    ensures error.None? ==> io.clock == old(io.clock) + PairReads(m, lower, upper)
    ensures error.Some? ==> !Early(error.value)
    ensures error.Some? ==> (error.value == Inverted(m.id, lower) && !Ordered(io.servos[m.id], m, lower, upper))
                            || (error.value in {CannotRead(m.id, lower), CannotRead(m.id, upper)} && io.losses > old(io.losses))
  {
    var lowerRequested := RequestedValue(m.parameters, lower);
    var upperRequested := RequestedValue(m.parameters, upper);
    if lowerRequested.None? && upperRequested.None? { return None; }
    var lo, hi;
    if lowerRequested.Some? {
      lo := lowerRequested.value;
    } else {
      error, lo := ReadParameter(io, m.id, lower);
      if error.Some? { return; }
    }
    if upperRequested.Some? {
      hi := upperRequested.value;
    } else {
      error, hi := ReadParameter(io, m.id, upper);
      if error.Some? { return; }
    }
    error := if lo > hi then Some(Inverted(m.id, lower)) else None;
  }

  lemma ParametersOfConcat(a: seq<Operation>, b: seq<Operation>)
    ensures Parameters(a + b) == Parameters(a) + Parameters(b)
  {
    forall p | p in Parameters(a) + Parameters(b) ensures p in Parameters(a + b) {
      if p in Parameters(a) {
        var i :| 0 <= i < |a| && a[i].p == p;
        assert (a + b)[i].p == p;
      } else {
        var i :| 0 <= i < |b| && b[i].p == p;
        assert (a + b)[|a| + i].p == p;
      }
    }
  }

  ghost predicate DistinctOps(ops: seq<Operation>) {
    forall i, j | 0 <= i < j < |ops| :: ops[i].p != ops[j].p
  }

  lemma ParametersAppend(ops: seq<Operation>, op: Operation)
    ensures Parameters(ops + [op]) == Parameters(ops) + {op.p}
  {
    ParametersOfConcat(ops, [op]);
    assert Parameters([op]) == {op.p} by { assert [op][0].p == op.p; }
  }

  lemma DistinctAppend(ops: seq<Operation>, op: Operation)
    requires DistinctOps(ops) && op.p !in Parameters(ops)
    ensures DistinctOps(ops + [op])
  {
    forall i | 0 <= i < |ops| ensures ops[i].p != op.p { assert ops[i].p in Parameters(ops); }
  }

  lemma {:induction false} SnapshotMembers(s: Servo, id: nat, ops: seq<Operation>, k: nat)
    requires k <= TABLE_SIZE
    ensures forall p: Parameter :: p in Parameters(Snapshots(s, id, ops, k)) <==>
                                   p < k && IsModeReset(p) && p !in Parameters(ops)
    ensures DistinctOps(Snapshots(s, id, ops, k))
  {
    if k > 0 {
      var p := k - 1;
      SnapshotMembers(s, id, ops, p);
      if IsModeReset(p) && p !in Parameters(ops) {
        ParametersAppend(Snapshots(s, id, ops, p), Operation(id, p, s.regs[p], s.regs[p]));
        DistinctAppend(Snapshots(s, id, ops, p), Operation(id, p, s.regs[p], s.regs[p]));
      }
    }
  }

  // One request: refused, already held (None), or to be written.
  method CheckRequest(io: Bus, m: MotorRecord, firmware: nat, r: ParameterValue)
    returns (error: Option<Error>, op: Option<Operation>)
    requires m.id in io.servos && io.servos[m.id].model == m.model && io.servos[m.id].firmware == firmware
    requires InRange(io.servos) && r in m.parameters
    modifies io`clock, io`losses
    ensures io.losses >= old(io.losses) && io.servos == old(io.servos)
    ensures error.None? ==> ParameterAccepted(io.servos[m.id], r) && io.clock == old(io.clock) + 1
    ensures error.None? ==> op == RequestOperation(io.servos[m.id], m.id, r)
    ensures error.None? ==> (op.None? <==> io.servos[m.id].regs[r.p] == r.value)
    ensures error.Some? && io.losses == old(io.losses) ==> !ParameterAccepted(io.servos[m.id], r)
    ensures error.Some? ==> !Early(error.value)
    ensures error.Some? ==> JustifiedOf(io.servos, m, error.value, io.losses > old(io.losses))
  {
    RequestedSome(m.parameters, r);
    op := None;
    if !SupportsModel(r.p, m.model) { return Some(UnsupportedByModel(m.id, r.p)), None; }
    if firmware < MinFirmware(r.p) { return Some(FirmwareTooOld(m.id, r.p)), None; }
    var current;
    error, current := ReadParameter(io, m.id, r.p);
    if error.Some? { return; }
    if !Loadable(r.p) {
      if current != r.value { error := Some(DumpOnlyDiffers(m.id, r.p)); }
    } else if current != r.value {
      op := Some(Operation(m.id, r.p, r.value, current));
    }
  }

  lemma JustifiedMore(s: Servos, m: MotorRecord, e: Error, lossy: bool, lossy': bool)
    requires JustifiedOf(s, m, e, lossy) && (lossy ==> lossy')
    ensures JustifiedOf(s, m, e, lossy')
  {
  }

  lemma NoParameters()
    ensures Parameters([]) == {}
  {
  }

  // The motor's requests in turn: what to write, and how many values it already holds.
  method CollectRequests(io: Bus, m: MotorRecord)
    returns (error: Option<Error>, ops: seq<Operation>, matching: nat, modeChanges: bool)
    requires m.id in io.servos && io.servos[m.id].model == m.model
    requires InRange(io.servos)
    modifies io`clock, io`losses
    ensures io.losses >= old(io.losses) && io.servos == old(io.servos)
    ensures error.None? ==> && (forall i | 0 <= i < |m.parameters| :: ParameterAccepted(io.servos[m.id], m.parameters[i]))
                            && ops == Requested(io.servos[m.id], m.id, m.parameters, |m.parameters|)
                            && matching == Matching(io.servos[m.id], m.parameters, |m.parameters|)
                            && (modeChanges <==> OPERATING_MODE in Parameters(ops))
    ensures error.Some? && io.losses == old(io.losses) ==>
              exists i | 0 <= i < |m.parameters| :: !ParameterAccepted(io.servos[m.id], m.parameters[i])
    ensures error.Some? ==> JustifiedOf(io.servos, m, error.value, io.losses > old(io.losses)) && !Early(error.value)
    ensures CountedRequests(io.servos[m.id], m, matching)
    ensures error.None? ==> io.clock == old(io.clock) + |m.parameters|
  {
    hide StopsAfter, Parameters, JustifiedOf;
    NoParameters();
    error, ops, matching, modeChanges := None, [], 0, false;
    ghost var servo := io.servos[m.id];
    var firmware := io.servos[m.id].firmware;
    var k := 0;
    while k < |m.parameters|
      invariant 0 <= k <= |m.parameters| && io.clock == old(io.clock) + k && io.losses >= old(io.losses) && io.servos == old(io.servos) && error.None?
      invariant forall i | 0 <= i < k :: ParameterAccepted(servo, m.parameters[i])
      invariant ops == Requested(servo, m.id, m.parameters, k) && matching == Matching(servo, m.parameters, k)
      invariant modeChanges <==> OPERATING_MODE in Parameters(ops)
    {
      var op;
      ghost var before := io.losses;
      error, op := CheckRequest(io, m, firmware, m.parameters[k]);
      if error.Some? {
        JustifiedMore(io.servos, m, error.value, io.losses > before, io.losses > old(io.losses));
        return;
      }
      assert io.servos[m.id] == servo && ParameterAccepted(servo, m.parameters[k]);
      if op.Some? {
        ParametersAppend(ops, op.value);
        ops := ops + [op.value];
        modeChanges := modeChanges || op.value.p == OPERATING_MODE;
      } else {
        matching := matching + 1;
      }
      k := k + 1;
    }
  }

  // The values that a mode change would reset and the requests leave alone.
  method TakeSnapshots(io: Bus, id: nat, requested: seq<Operation>) returns (error: Option<Error>, ops: seq<Operation>)
    requires id in io.servos
    requires InRange(io.servos)
    modifies io`clock, io`losses
    ensures io.losses >= old(io.losses) && io.servos == old(io.servos)
    ensures error.None? ==> ops == requested + Snapshots(io.servos[id], id, requested, TABLE_SIZE)
                            && io.clock == old(io.clock) + |Snapshots(io.servos[id], id, requested, TABLE_SIZE)|
    ensures error.Some? ==> io.losses > old(io.losses) && error.value.CannotRead? && error.value.id == id && !Early(error.value)
  {
    error, ops := None, requested;
    ghost var servo := io.servos[id];
    var p := 0;
    while p < TABLE_SIZE
      invariant 0 <= p <= TABLE_SIZE && io.losses >= old(io.losses) && error.None?
      invariant ops == requested + Snapshots(servo, id, requested, p)
      invariant io.clock == old(io.clock) + |Snapshots(servo, id, requested, p)|
    {
      ParametersOfConcat(requested, Snapshots(servo, id, requested, p));
      SnapshotMembers(servo, id, requested, p);
      if IsModeReset(p) && p !in Parameters(ops) {
        var current;
        error, current := ReadParameter(io, id, p);
        if error.Some? { return; }
        ops := ops + [Operation(id, p, current, current)];
      }
      p := p + 1;
    }
  }

  // The motor answers as the model the dump is for, its firmware can be read, and its torque is off.
  method CheckMotor(io: Bus, m: MotorRecord) returns (error: Option<Error>)
    modifies io`clock, io`losses
    ensures io.losses >= old(io.losses)
    ensures error.None? ==> m.id in io.servos && io.servos[m.id].model == m.model && io.servos[m.id].torque == 0
                            && io.clock == old(io.clock) + 3
    ensures error.Some? && io.losses == old(io.losses) ==> !MotorAccepted(io.servos, m)
    ensures error.Some? ==> JustifiedOf(io.servos, m, error.value, io.losses > old(io.losses))
                            && Early(error.value) && io.clock == old(io.clock) + StopsAfter(error.value)
  {
    var ok := io.Exchange(m.id);
    if !ok { return Some(PingFailed(m.id)); }
    if io.servos[m.id].model != m.model { return Some(WrongModel(m.id)); }
    ok := io.Exchange(m.id);
    if !ok { return Some(FirmwareUnreadable(m.id)); }
    ok := io.Exchange(m.id);
    if !ok { return Some(TorqueUnreadable(m.id)); }
    if io.servos[m.id].torque != 0 { return Some(TorqueEnabled(m.id)); }
    error := None;
  }

  /** One motor's preflight: it fails without a lost transaction only for a motor the dump may
      not be applied to, and otherwise yields exactly the motor's planned operations. */
  method PreflightMotor(io: Bus, m: MotorRecord)
    returns (error: Option<Error>, ops: seq<Operation>, matching: nat)
    requires DistinctParameters(m.parameters)
    requires InRange(io.servos)
    modifies io`clock, io`losses
    ensures io.losses >= old(io.losses) && io.servos == old(io.servos)
    ensures error.None? ==> m.id in io.servos && MotorAccepted(io.servos, m) && ops == MotorPlan(io.servos[m.id], m)
                            && matching == Matching(io.servos[m.id], m.parameters, |m.parameters|)
    ensures error.Some? && io.losses == old(io.losses) ==> !MotorAccepted(io.servos, m)
    ensures error.Some? ==> JustifiedOf(io.servos, m, error.value, io.losses > old(io.losses))
                            && CountedTo(io.servos, m, error.value, matching)
    ensures error.None? ==> io.clock == old(io.clock) + PreflightReads(io.servos[m.id], m)
    ensures error.Some? && Early(error.value) ==> io.clock == old(io.clock) + StopsAfter(error.value)
  {
    hide StopsAfter, CountedRequests, Ordered, ParameterAccepted, Matching, Requested, Snapshots, PairReads;
    ops, matching := [], 0;
    error := CheckMotor(io, m);
    if error.Some? { return; }
    var modeChanges;
    error, ops, matching, modeChanges := CollectRequests(io, m);
    if error.Some? { return; }
    error := CheckOrderedPair(io, m, MIN_VOLTAGE_LIMIT, MAX_VOLTAGE_LIMIT);
    if error.Some? { return; }
    error := CheckOrderedPair(io, m, MIN_POSITION_LIMIT, MAX_POSITION_LIMIT);
    if error.Some? { return; }

    if modeChanges {
      error, ops := TakeSnapshots(io, m.id, ops);
      if error.Some? { return; }
    }
    ops := Sorting.Sort(ops, AddrLe);
  }

  // ----- The whole dump's plan -----

  // The operations of the dump's first n motors, those off the bus left out.
  function Plan(s: Servos, dump: seq<MotorRecord>, n: nat): seq<Operation>
    requires n <= |dump|
  {
    if n == 0 then []
    else
      var ops, m := Plan(s, dump, n - 1), dump[n - 1];
      if m.id in s then ops + MotorPlan(s[m.id], m) else ops
  }

  function Unchanged(s: Servos, dump: seq<MotorRecord>, n: nat): nat
    requires n <= |dump|
  {
    if n == 0 then 0
    else
      var m := dump[n - 1];
      Unchanged(s, dump, n - 1) + if m.id in s then Matching(s[m.id], m.parameters, |m.parameters|) else 0
  }

  predicate Plans(ops: seq<Operation>, id: nat, p: Parameter) {
    exists i :: 0 <= i < |ops| && ops[i].id == id && ops[i].p == p
  }

  ghost predicate Originals(s: Servos, ops: seq<Operation>) {
    forall i | 0 <= i < |ops| :: Holds(s, ops[i].id, ops[i].p, ops[i].original)
  }

  // No write disturbs a register planned before it.
  ghost predicate Separate(ops: seq<Operation>) {
    forall i, j | 0 <= i < j < |ops| :: !Disturbs(ops[j].id, ops[j].p, ops[i].id, ops[i].p)
  }

  ghost predicate ResetsPlanned(ops: seq<Operation>, id: nat) {
    forall p: Parameter | IsModeReset(p) :: Plans(ops, id, p)
  }

  /** What the transaction rests on: each register is written once, from its present value; a
      write of operating_mode comes before the writes of all it resets, and none is missing. */
  ghost predicate WellPlanned(s: Servos, ops: seq<Operation>) {
    && Originals(s, ops)
    && Separate(ops)
    && forall i | 0 <= i < |ops| && ops[i].p == OPERATING_MODE :: ResetsPlanned(ops, ops[i].id)
  }

  // The plan's operations are what the dump asks for, and restorations of resettable values.
  ghost predicate Serves(s: Servo, m: MotorRecord, ops: seq<Operation>) {
    && (forall i | 0 <= i < |ops| ::
          && ops[i].id == m.id
          && (ParameterValue(ops[i].p, ops[i].desired) in m.parameters
              || (ops[i].desired == ops[i].original && IsModeReset(ops[i].p))))
    && (forall k | 0 <= k < |m.parameters| ::
          RequestOperation(s, m.id, m.parameters[k]).Some? ==> RequestOperation(s, m.id, m.parameters[k]).value in ops)
  }

  lemma {:induction false} RequestedMembers(s: Servo, id: nat, ps: seq<ParameterValue>, k: nat)
    requires k <= |ps| && DistinctParameters(ps)
    ensures var ops := Requested(s, id, ps, k);
            && DistinctOps(ops)
            && (forall i | 0 <= i < |ops| :: ops[i].id == id && ops[i].original == s.regs[ops[i].p]
                                             && ParameterValue(ops[i].p, ops[i].desired) in ps[..k])
            && (forall j | 0 <= j < k && RequestOperation(s, id, ps[j]).Some? :: RequestOperation(s, id, ps[j]).value in ops)
  {
    if k > 0 {
      RequestedMembers(s, id, ps, k - 1);
      var ops, op := Requested(s, id, ps, k - 1), RequestOperation(s, id, ps[k - 1]);
      assert ps[..k] == ps[..k - 1] + [ps[k - 1]];
      if op.Some? {
        forall i | 0 <= i < |ops| ensures ops[i].p != op.value.p {
          var j :| 0 <= j < k - 1 && ps[j] == ParameterValue(ops[i].p, ops[i].desired);
        }
      }
    }
  }

  /** Every accepted request is either held already or written. */
  lemma {:induction false} EveryRequestCounted(s: Servo, id: nat, ps: seq<ParameterValue>, k: nat)
    requires k <= |ps| && forall i | 0 <= i < k :: ParameterAccepted(s, ps[i])
    ensures Matching(s, ps, k) + |Requested(s, id, ps, k)| == k
  {
    if k > 0 { EveryRequestCounted(s, id, ps, k - 1); }
  }

  lemma SameMembersSameParameters(a: seq<Operation>, b: seq<Operation>)
    requires forall op :: op in a <==> op in b
    ensures Parameters(a) == Parameters(b)
  {
    forall p ensures p in Parameters(a) <==> p in Parameters(b) {
      if p in Parameters(a) { var i :| 0 <= i < |a| && a[i].p == p; assert a[i] in b; }
      if p in Parameters(b) { var i :| 0 <= i < |b| && b[i].p == p; assert b[i] in a; }
    }
  }

  lemma {:induction false} InsertKeepsDistinct(op: Operation, ops: seq<Operation>)
    requires DistinctOps(ops) && op.p !in Parameters(ops)
    ensures DistinctOps(Sorting.Insert(op, ops, AddrLe))
  {
    if ops == [] || AddrLe(op, ops[0]) {
      forall i | 0 <= i < |ops| ensures ops[i].p != op.p { assert ops[i].p in Parameters(ops); }
    } else {
      var rest := ops[1..];
      forall p | p in Parameters(rest) ensures p in Parameters(ops) {
        var i :| 0 <= i < |rest| && rest[i].p == p;
        assert ops[i + 1].p == p;
      }
      InsertKeepsDistinct(op, rest);
      var placed := Sorting.Insert(op, rest, AddrLe);
      forall i | 0 <= i < |placed| ensures placed[i].p != ops[0].p {
        assert placed[i] in multiset(placed);
        assert placed[i] == op || placed[i] in rest;
        assert ops[0].p in Parameters(ops);
      }
    }
  }

  lemma {:induction false} SortKeepsDistinct(ops: seq<Operation>)
    requires DistinctOps(ops)
    ensures DistinctOps(Sorting.Sort(ops, AddrLe))
  {
    if ops != [] {
      var rest := ops[1..];
      SortKeepsDistinct(rest);
      Sorting.SortMembers(rest, AddrLe);
      SameMembersSameParameters(rest, Sorting.Sort(rest, AddrLe));
      assert ops[0].p !in Parameters(rest);
      InsertKeepsDistinct(ops[0], Sorting.Sort(rest, AddrLe));
    }
  }

  ghost predicate Snapshot(s: Servo, id: nat, op: Operation) {
    op.id == id && op.original == s.regs[op.p] && op.desired == op.original
  }

  lemma {:induction false} SnapshotsHold(s: Servo, id: nat, ops: seq<Operation>, k: nat)
    requires k <= TABLE_SIZE
    ensures forall i | 0 <= i < |Snapshots(s, id, ops, k)| :: Snapshot(s, id, Snapshots(s, id, ops, k)[i])
  {
    if k > 0 { SnapshotsHold(s, id, ops, k - 1); }
  }

  lemma UnsortedDistinct(s: Servo, m: MotorRecord)
    requires DistinctParameters(m.parameters)
    ensures DistinctOps(Unsorted(s, m))
    ensures OPERATING_MODE in Parameters(Unsorted(s, m)) ==>
              forall p: Parameter | IsModeReset(p) :: p in Parameters(Unsorted(s, m))
  {
    var requested := Requested(s, m.id, m.parameters, |m.parameters|);
    var snaps := Snapshots(s, m.id, requested, TABLE_SIZE);
    RequestedMembers(s, m.id, m.parameters, |m.parameters|);
    SnapshotMembers(s, m.id, requested, TABLE_SIZE);
    ParametersOfConcat(requested, snaps);
    forall i, j | 0 <= i < |requested| && 0 <= j < |snaps| ensures requested[i].p != snaps[j].p {
      assert requested[i].p in Parameters(requested);
      assert snaps[j].p in Parameters(snaps);
    }
  }

  lemma UnsortedServes(s: Servo, m: MotorRecord)
    requires DistinctParameters(m.parameters)
    ensures Serves(s, m, Unsorted(s, m))
    ensures forall i | 0 <= i < |Unsorted(s, m)| :: Unsorted(s, m)[i].original == s.regs[Unsorted(s, m)[i].p]
  {
    var k := |m.parameters|;
    var requested := Requested(s, m.id, m.parameters, k);
    var snaps := Snapshots(s, m.id, requested, TABLE_SIZE);
    RequestedMembers(s, m.id, m.parameters, k);
    SnapshotMembers(s, m.id, requested, TABLE_SIZE);
    SnapshotsHold(s, m.id, requested, TABLE_SIZE);
    assert m.parameters[..k] == m.parameters;
    var ops := Unsorted(s, m);
    forall i | 0 <= i < |snaps| ensures IsModeReset(snaps[i].p) && Snapshot(s, m.id, snaps[i]) {
      assert snaps[i].p in Parameters(snaps);
    }
  }

  lemma MotorPlanMembers(s: Servo, m: MotorRecord)
    requires DistinctParameters(m.parameters)
    ensures var ops := MotorPlan(s, m);
            && DistinctOps(ops) && Serves(s, m, ops) && Sorting.SortedBy(AddrLe, ops)
            && (forall i | 0 <= i < |ops| :: ops[i].id == m.id && ops[i].original == s.regs[ops[i].p])
            && (OPERATING_MODE in Parameters(ops) ==> forall p | IsModeReset(p) :: p in Parameters(ops))
  {
    var before, ops := Unsorted(s, m), MotorPlan(s, m);
    UnsortedDistinct(s, m);
    UnsortedServes(s, m);
    Sorting.SortMembers(before, AddrLe);
    Sorting.SortSorted(before, AddrLe);
    SortKeepsDistinct(before);
    SameMembersSameParameters(before, ops);
    forall i | 0 <= i < |ops| ensures ops[i] in before { }
  }

  lemma MotorPlanWellPlanned(s: Servos, m: MotorRecord)
    requires m.id in s && DistinctParameters(m.parameters)
    ensures WellPlanned(s, MotorPlan(s[m.id], m))
  {
    var ops := MotorPlan(s[m.id], m);
    MotorPlanMembers(s[m.id], m);
    forall i, j | 0 <= i < j < |ops| ensures !Disturbs(ops[j].id, ops[j].p, ops[i].id, ops[i].p) {
      assert AddrLe(ops[i], ops[j]);
      if IsModeReset(ops[i].p) { Ascending(OPERATING_MODE, ops[i].p); }
    }
    forall i, p: Parameter | 0 <= i < |ops| && ops[i].p == OPERATING_MODE && IsModeReset(p) ensures Plans(ops, ops[i].id, p) {
      assert ops[i].p in Parameters(ops);
      assert p in Parameters(ops);
      var j :| 0 <= j < |ops| && ops[j].p == p;
      assert ops[j].id == m.id;
    }
  }

  lemma PlansConcat(a: seq<Operation>, b: seq<Operation>, id: nat, p: Parameter)
    ensures Plans(a, id, p) || Plans(b, id, p) ==> Plans(a + b, id, p)
  {
    if i :| 0 <= i < |a| && a[i].id == id && a[i].p == p { assert (a + b)[i] == a[i]; }
    if i :| 0 <= i < |b| && b[i].id == id && b[i].p == p { assert (a + b)[|a| + i] == b[i]; }
  }

  lemma WellPlannedConcat(s: Servos, a: seq<Operation>, b: seq<Operation>)
    requires WellPlanned(s, a) && WellPlanned(s, b)
    requires forall i, j | 0 <= i < |a| && 0 <= j < |b| :: a[i].id != b[j].id
    ensures WellPlanned(s, a + b)
  {
    var ops := a + b;
    forall i | 0 <= i < |ops| && ops[i].p == OPERATING_MODE ensures ResetsPlanned(ops, ops[i].id) {
      assert ResetsPlanned(if i < |a| then a else b, ops[i].id);
      forall p: Parameter | IsModeReset(p) ensures Plans(ops, ops[i].id, p) { PlansConcat(a, b, ops[i].id, p); }
    }
  }

  // Motor k of the dump is on the bus and its plan holds op.
  ghost predicate FromMotor(s: Servos, dump: seq<MotorRecord>, k: nat, op: Operation) {
    k < |dump| && dump[k].id in s && op.id == dump[k].id && op in MotorPlan(s[dump[k].id], dump[k])
  }

  lemma {:induction false} PlanMembers(s: Servos, dump: seq<MotorRecord>, n: nat)
    requires n <= |dump|
    ensures forall op :: op in Plan(s, dump, n) <==> exists k | 0 <= k < n :: FromMotor(s, dump, k, op)
  {
    if n > 0 {
      var m, before := dump[n - 1], Plan(s, dump, n - 1);
      PlanMembers(s, dump, n - 1);
      forall op ensures op in Plan(s, dump, n) <==> op in before || FromMotor(s, dump, n - 1, op) {
        if m.id in s && op in MotorPlan(s[m.id], m) { MotorPlanIds(s[m.id], m, op); }
      }
    }
  }

  lemma MotorPlanIds(s: Servo, m: MotorRecord, op: Operation)
    requires op in MotorPlan(s, m)
    ensures op.id == m.id
  {
    Sorting.SortMembers(Unsorted(s, m), AddrLe);
    RequestedIds(s, m.id, m.parameters, |m.parameters|);
    SnapshotsHold(s, m.id, Requested(s, m.id, m.parameters, |m.parameters|), TABLE_SIZE);
  }

  lemma {:induction false} RequestedIds(s: Servo, id: nat, ps: seq<ParameterValue>, k: nat)
    requires k <= |ps|
    ensures forall op | op in Requested(s, id, ps, k) :: op.id == id
  {
    if k > 0 { RequestedIds(s, id, ps, k - 1); }
  }

  // The motors before motor n are others.
  lemma OtherMotors(s: Servos, dump: seq<MotorRecord>, n: nat)
    requires n < |dump| && WellFormed(dump)
    ensures forall op | op in Plan(s, dump, n) :: op.id != dump[n].id
  {
    PlanMembers(s, dump, n);
  }

  lemma {:induction false} PlansWell(s: Servos, dump: seq<MotorRecord>, n: nat)
    requires n <= |dump| && WellFormed(dump)
    ensures WellPlanned(s, Plan(s, dump, n))
  {
    hide WellPlanned, MotorPlan;
    if n == 0 {
      assert WellPlanned(s, []) by { NothingPlanned(s); }
    } else {
      PlansWell(s, dump, n - 1);
      var m, before := dump[n - 1], Plan(s, dump, n - 1);
      if m.id in s {
        assert m in dump;
        var ops := MotorPlan(s[m.id], m);
        MotorPlanWellPlanned(s, m);
        OtherMotors(s, dump, n - 1);
        forall i, j | 0 <= i < |before| && 0 <= j < |ops| ensures before[i].id != ops[j].id {
          assert before[i] in before && ops[j] in ops;
          MotorPlanIds(s[m.id], m, ops[j]);
        }
        WellPlannedConcat(s, before, ops);
      }
    }
  }

  lemma NothingPlanned(s: Servos)
    ensures WellPlanned(s, [])
  {
  }

  /** The plan of a well-formed dump is well planned, and consists of the plans of its motors. */
  lemma PlanIsWellPlanned(s: Servos, dump: seq<MotorRecord>, n: nat)
    requires n <= |dump| && WellFormed(dump)
    ensures WellPlanned(s, Plan(s, dump, n))
    ensures forall op | op in Plan(s, dump, n) :: exists k | 0 <= k < n :: FromMotor(s, dump, k, op)
    ensures forall k, op | 0 <= k < n && FromMotor(s, dump, k, op) :: op in Plan(s, dump, n)
  {
    hide WellPlanned, FromMotor, Plan, WellFormed;
    PlansWell(s, dump, n);
    PlanMembers(s, dump, n);
  }

  // ----- Carrying out a plan -----

  // The value an operation writes, forward or back.
  function Goal(op: Operation, back: bool): int {
    if back then op.original else op.desired
  }

  ghost predicate OthersKept(s: Servos, s': Servos, ops: seq<Operation>) {
    forall id, p: Parameter | id in s && !Plans(ops, id, p) :: Holds(s', id, p, s[id].regs[p])
  }

  ghost predicate Reached(s': Servos, ops: seq<Operation>, n: nat, back: bool) {
    forall i | 0 <= i < n && i < |ops| :: Holds(s', ops[i].id, ops[i].p, Goal(ops[i], back))
  }

  // A write of a planned operation disturbs no register outside the plan.
  lemma WriteKeepsOthers(s: Servos, t: Servos, t': Servos, ops: seq<Operation>, n: nat)
    requires n < |ops| && WellPlanned(s, ops) && SameServos(s, t) && OthersKept(s, t, ops)
    requires Touched(t, t', ops[n].id, ops[n].p)
    ensures SameServos(s, t') && OthersKept(s, t', ops)
  {
    var op := ops[n];
    assert Plans(ops, op.id, op.p);
    assert op.p == OPERATING_MODE ==> ResetsPlanned(ops, op.id);
    forall id, p: Parameter | id in s && !Plans(ops, id, p) ensures Holds(t', id, p, s[id].regs[p]) {
      assert !Disturbs(op.id, op.p, id, p);
      assert Holds(t, id, p, s[id].regs[p]);
    }
  }

  lemma Undisturbed(t: Servos, t': Servos, id: nat, p: Parameter, k: nat, q: Parameter, value: int)
    requires Touched(t, t', id, p) && !Disturbs(id, p, k, q) && Holds(t, k, q, value)
    ensures Holds(t', k, q, value)
  {
  }

  // It undoes no goal reached before it, and reaches its own when it is verified.
  lemma WriteReaches(s: Servos, t: Servos, t': Servos, ops: seq<Operation>, n: nat, back: bool)
    requires n < |ops| && Separate(ops) && Reached(t, ops, n, back)
    requires Touched(t, t', ops[n].id, ops[n].p) && Holds(t', ops[n].id, ops[n].p, Goal(ops[n], back))
    ensures Reached(t', ops, n + 1, back)
  {
    forall i | 0 <= i < n ensures Holds(t', ops[i].id, ops[i].p, Goal(ops[i], back)) {
      Undisturbed(t, t', ops[n].id, ops[n].p, ops[i].id, ops[i].p, Goal(ops[i], back));
    }
  }

  // With every original written back, nothing of any servo is changed.
  lemma RestoredEntirely(s: Servos, s': Servos, ops: seq<Operation>)
    requires Originals(s, ops) && SameServos(s, s') && OthersKept(s, s', ops) && Reached(s', ops, |ops|, true)
    ensures s' == s
  {
    forall id | id in s ensures s'[id] == s[id] {
      forall p: Parameter ensures Holds(s', id, p, s[id].regs[p]) {
        if Plans(ops, id, p) {
          var i :| 0 <= i < |ops| && ops[i].id == id && ops[i].p == p;
          assert Holds(s, ops[i].id, ops[i].p, ops[i].original);
          assert Holds(s', ops[i].id, ops[i].p, Goal(ops[i], true));
        }
      }
      SameRegisters(s[id].regs, s'[id].regs);
    }
  }

  lemma SameRegisters(a: Registers, b: Registers)
    requires forall p: Parameter :: b[p] == a[p]
    ensures a == b
  {
    forall p: Parameter ensures p in a && p in b { }
  }

  predicate Requests(dump: seq<MotorRecord>, id: nat, p: Parameter) {
    exists k :: 0 <= k < |dump| && dump[k].id == id && RequestedValue(dump[k].parameters, p).Some?
  }

  /** What a successful apply leaves: every requested value, and every other register of every
      servo as it was. */
  ghost predicate Carried(s: Servos, s': Servos, dump: seq<MotorRecord>) {
    && SameServos(s, s')
    && (forall k, i | 0 <= k < |dump| && 0 <= i < |dump[k].parameters| ::
          Holds(s', dump[k].id, dump[k].parameters[i].p, dump[k].parameters[i].value))
    && (forall id, p: Parameter | id in s && !Requests(dump, id, p) :: Holds(s', id, p, s[id].regs[p]))
  }

  lemma PlannedByOneMotor(s: Servos, dump: seq<MotorRecord>, k: nat, op: Operation)
    requires WellFormed(dump) && k < |dump| && op in Plan(s, dump, |dump|) && op.id == dump[k].id
    ensures FromMotor(s, dump, k, op)
    ensures (exists r :: r in dump[k].parameters && r == ParameterValue(op.p, op.desired))
            || (op.desired == op.original && op.original == s[op.id].regs[op.p])
  {
    PlanIsWellPlanned(s, dump, |dump|);
    var k' :| 0 <= k' < |dump| && FromMotor(s, dump, k', op);
    assert k' == k;
    MotorPlanMembers(s[op.id], dump[k]);
  }

  lemma PlannedReached(s: Servos, s': Servos, dump: seq<MotorRecord>, id: nat, p: Parameter) returns (op: Operation)
    requires Plans(Plan(s, dump, |dump|), id, p)
    requires Reached(s', Plan(s, dump, |dump|), |Plan(s, dump, |dump|)|, false)
    ensures op in Plan(s, dump, |dump|) && op.id == id && op.p == p && Holds(s', id, p, op.desired)
  {
    var ops := Plan(s, dump, |dump|);
    var j :| 0 <= j < |ops| && ops[j].id == id && ops[j].p == p;
    op := ops[j];
    assert Holds(s', ops[j].id, ops[j].p, Goal(ops[j], false));
  }

  lemma RequestPlanned(s: Servos, dump: seq<MotorRecord>, k: nat, r: ParameterValue)
    requires WellFormed(dump) && k < |dump| && dump[k].id in s && r in dump[k].parameters
    ensures var op := RequestOperation(s[dump[k].id], dump[k].id, r);
            op.Some? ==> op.value in Plan(s, dump, |dump|)
  {
    PlanIsWellPlanned(s, dump, |dump|);
    MotorPlanMembers(s[dump[k].id], dump[k]);
    var i :| 0 <= i < |dump[k].parameters| && dump[k].parameters[i] == r;
    var op := RequestOperation(s[dump[k].id], dump[k].id, dump[k].parameters[i]);
    assert op.Some? ==> FromMotor(s, dump, k, op.value);
  }

  lemma RequestCarried(s: Servos, s': Servos, dump: seq<MotorRecord>, k: nat, r: ParameterValue)
    requires WellFormed(dump) && k < |dump| && r in dump[k].parameters
    requires dump[k].id in s && ParameterAccepted(s[dump[k].id], r)
    requires OthersKept(s, s', Plan(s, dump, |dump|))
    requires Reached(s', Plan(s, dump, |dump|), |Plan(s, dump, |dump|)|, false)
    ensures Holds(s', dump[k].id, r.p, r.value)
  {
    var id := dump[k].id;
    RequestPlanned(s, dump, k, r);
    if RequestOperation(s[id], id, r).Some? {
      PlannedPlans(Plan(s, dump, |dump|), RequestOperation(s[id], id, r).value);
    }
    if Plans(Plan(s, dump, |dump|), id, r.p) {
      var op := PlannedReached(s, s', dump, id, r.p);
      PlannedByOneMotor(s, dump, k, op);
      OneRequestEach(dump[k].parameters);
      if RequestOperation(s[id], id, r).Some? {
        PlanIsWellPlanned(s, dump, |dump|);
        OneOperationEach(Plan(s, dump, |dump|), op, RequestOperation(s[id], id, r).value);
      }
    }
  }

  lemma PlannedPlans(ops: seq<Operation>, op: Operation)
    requires op in ops
    ensures Plans(ops, op.id, op.p)
  {
  }

  lemma OneOperationEach(ops: seq<Operation>, a: Operation, b: Operation)
    requires Separate(ops) && a in ops && b in ops && a.id == b.id && a.p == b.p
    ensures a == b
  {
    var i :| 0 <= i < |ops| && ops[i] == a;
    var j :| 0 <= j < |ops| && ops[j] == b;
    forall m, n | 0 <= m < n < |ops| ensures ops[m].id != ops[n].id || ops[m].p != ops[n].p {
      assert !Disturbs(ops[n].id, ops[n].p, ops[m].id, ops[m].p);
    }
  }

  lemma OneRequestEach(ps: seq<ParameterValue>)
    requires DistinctParameters(ps)
    ensures forall a, b | a in ps && b in ps && a.p == b.p :: a == b
  {
  }

  lemma OtherCarried(s: Servos, s': Servos, dump: seq<MotorRecord>, id: nat, p: Parameter)
    requires WellFormed(dump) && id in s && !Requests(dump, id, p)
    requires OthersKept(s, s', Plan(s, dump, |dump|))
    requires Reached(s', Plan(s, dump, |dump|), |Plan(s, dump, |dump|)|, false)
    ensures Holds(s', id, p, s[id].regs[p])
  {
    var ops := Plan(s, dump, |dump|);
    if Plans(ops, id, p) {
      var op := PlannedReached(s, s', dump, id, p);
      PlanIsWellPlanned(s, dump, |dump|);
      var k :| 0 <= k < |dump| && FromMotor(s, dump, k, op);
      PlannedByOneMotor(s, dump, k, op);
      assert RequestedValue(dump[k].parameters, p).None?;
    }
  }

  lemma PlanCarriesOut(s: Servos, s': Servos, dump: seq<MotorRecord>)
    requires WellFormed(dump) && AllAccepted(s, dump)
    requires SameServos(s, s') && OthersKept(s, s', Plan(s, dump, |dump|))
    requires Reached(s', Plan(s, dump, |dump|), |Plan(s, dump, |dump|)|, false)
    ensures Carried(s, s', dump)
  {
    forall k, i | 0 <= k < |dump| && 0 <= i < |dump[k].parameters|
      ensures Holds(s', dump[k].id, dump[k].parameters[i].p, dump[k].parameters[i].value)
    {
      assert dump[k] in dump;
      assert MotorAccepted(s, dump[k]) && ParameterAccepted(s[dump[k].id], dump[k].parameters[i]);
      RequestCarried(s, s', dump, k, dump[k].parameters[i]);
    }
    forall id, p: Parameter | id in s && !Requests(dump, id, p) ensures Holds(s', id, p, s[id].regs[p]) {
      OtherCarried(s, s', dump, id, p);
    }
  }

  ghost predicate AllAccepted(s: Servos, dump: seq<MotorRecord>) {
    forall m | m in dump :: MotorAccepted(s, m)
  }

  lemma PlanOneMore(s: Servos, dump: seq<MotorRecord>, k: nat, ops: seq<Operation>, matching: nat)
    requires k < |dump| && AllAccepted(s, dump[..k]) && MotorAccepted(s, dump[k])
    requires ops == MotorPlan(s[dump[k].id], dump[k])
    requires matching == Matching(s[dump[k].id], dump[k].parameters, |dump[k].parameters|)
    ensures AllAccepted(s, dump[..k + 1])
    ensures Plan(s, dump, k + 1) == Plan(s, dump, k) + ops
    ensures Unchanged(s, dump, k + 1) == Unchanged(s, dump, k) + matching
  {
    assert dump[..k + 1] == dump[..k] + [dump[k]];
  }

  ghost function AllReads(s: Servos, dump: seq<MotorRecord>, n: nat): nat
    requires n <= |dump|
  {
    if n == 0 then 0
    else
      var m := dump[n - 1];
      AllReads(s, dump, n - 1) + if m.id in s then PreflightReads(s[m.id], m) else 0
  }

  // The motors before the one that fails count in full, and that one up to its error.
  ghost predicate CountedAt(s: Servos, dump: seq<MotorRecord>, e: Error, unchangedCount: nat, k: nat)
    requires k < |dump|
  {
    unchangedCount >= Unchanged(s, dump, k) && CountedTo(s, dump[k], e, unchangedCount - Unchanged(s, dump, k))
  }

  ghost predicate CountedSoFar(s: Servos, dump: seq<MotorRecord>, e: Error, unchangedCount: nat) {
    exists k: nat :: k < |dump| && CountedAt(s, dump, e, unchangedCount, k)
  }

  lemma JustifiedInDump(s: Servos, dump: seq<MotorRecord>, m: MotorRecord, e: Error, lossy: bool, lossy': bool)
    requires m in dump && JustifiedOf(s, m, e, lossy) && (lossy ==> lossy')
    ensures Justified(s, dump, e, lossy')
  {
    JustifiedMore(s, m, e, lossy, lossy');
  }

  lemma CountsHere(s: Servos, dump: seq<MotorRecord>, e: Error, matching: nat, k: nat)
    requires k < |dump| && CountedTo(s, dump[k], e, matching)
    ensures CountedSoFar(s, dump, e, Unchanged(s, dump, k) + matching)
  {
    hide CountedTo;
    assert CountedAt(s, dump, e, Unchanged(s, dump, k) + matching, k);
  }

  lemma NothingChecked(s: Servos, dump: seq<MotorRecord>)
    ensures AllAccepted(s, dump[..0]) && Plan(s, dump, 0) == [] && Unchanged(s, dump, 0) == 0 && AllReads(s, dump, 0) == 0
  {
  }

  // Every motor's preflight in turn, before any write.
  method Preflight(io: Bus, dump: seq<MotorRecord>)
    returns (error: Option<Error>, operations: seq<Operation>, unchangedCount: nat)
    requires WellFormed(dump) && InRange(io.servos)
    modifies io`clock, io`losses
    ensures io.losses >= old(io.losses) && io.servos == old(io.servos)
    ensures error.None? ==> && AllAccepted(io.servos, dump)
                            && operations == Plan(io.servos, dump, |dump|)
                            && unchangedCount == Unchanged(io.servos, dump, |dump|)
    ensures error.Some? && io.losses == old(io.losses) ==> !AllAccepted(io.servos, dump)
    ensures error.Some? ==> Justified(io.servos, dump, error.value, io.losses > old(io.losses))
                            && CountedSoFar(io.servos, dump, error.value, unchangedCount)
    ensures error.None? ==> io.clock == old(io.clock) + AllReads(io.servos, dump, |dump|)
  {
    hide CountedTo, CountedSoFar, PreflightReads, MotorAccepted, MotorPlan, Matching, JustifiedOf;
    NothingChecked(io.servos, dump);
    error, operations, unchangedCount := None, [], 0;
    ghost var s := io.servos;
    var k := 0;
    while k < |dump|
      invariant 0 <= k <= |dump| && io.losses >= old(io.losses) && io.servos == s && error.None?
      invariant AllAccepted(s, dump[..k])
      invariant operations == Plan(s, dump, k) && unchangedCount == Unchanged(s, dump, k)
      invariant io.clock == old(io.clock) + AllReads(s, dump, k)
    {
      var m, ops, matching := dump[k], [], 0;
      assert m in dump;
      ghost var before := io.losses;
      error, ops, matching := PreflightMotor(io, m);
      if error.Some? {
        unchangedCount := unchangedCount + matching;
        CountsHere(s, dump, error.value, matching, k);
        JustifiedInDump(s, dump, m, error.value, io.losses > before, io.losses > old(io.losses));
        return;
      }
      PlanOneMore(s, dump, k, ops, matching);
      operations := operations + ops;
      unchangedCount := unchangedCount + matching;
      k := k + 1;
    }
    assert dump[..k] == dump;
  }

  // ----- What the writes of a plan put on the bus, and what their errors say -----

  function Rewrite(op: Operation, back: bool): Request {
    Request(op.id, op.p, Stored(op.p, Goal(op, back)))
  }

  function Rewrites(ops: seq<Operation>, back: bool): (r: seq<Request>)
    ensures |r| == |ops| && forall k | 0 <= k < |r| :: r[k] == Rewrite(ops[k], back)
  {
    seq(|ops|, k requires 0 <= k < |ops| => Rewrite(ops[k], back))
  }

  lemma RewritesMore(ops: seq<Operation>, n: nat, back: bool)
    requires n < |ops|
    ensures Rewrites(ops[..n + 1], back) == Rewrites(ops[..n], back) + [Rewrite(ops[n], back)]
  {
  }

  // The error is of this register's write or its readback.
  predicate Blames(e: Error, id: nat, p: Parameter) {
    e in {CannotWrite(id, p), CannotRead(id, p), ReadbackDiffers(id, p)}
  }

  ghost predicate Blamed(errors: seq<Error>, id: nat, p: Parameter) {
    exists k :: 0 <= k < |errors| && Blames(errors[k], id, p)
  }

  // Error k is of operation at[k], in plan order.
  ghost predicate ErrorsOf(errors: seq<Error>, ops: seq<Operation>, at: seq<nat>) {
    && |at| == |errors|
    && (forall k | 0 <= k < |at| :: at[k] < |ops| && Blames(errors[k], ops[at[k]].id, ops[at[k]].p))
    && forall j, k | 0 <= j < k < |at| :: at[j] < at[k]
  }

  // Of the first n operations, each is carried out or blamed.
  ghost predicate ReachedUnless(s': Servos, ops: seq<Operation>, n: nat, back: bool, errors: seq<Error>) {
    forall i | 0 <= i < n && i < |ops| ::
      Holds(s', ops[i].id, ops[i].p, Goal(ops[i], back)) || Blamed(errors, ops[i].id, ops[i].p)
  }

  lemma BlamedStays(errors: seq<Error>, e: Error, id: nat, p: Parameter)
    ensures Blamed(errors + [e], id, p) <==> Blamed(errors, id, p) || Blames(e, id, p)
  {
    var more := errors + [e];
    if k :| 0 <= k < |errors| && Blames(errors[k], id, p) { assert more[k] == errors[k]; }
    if Blames(e, id, p) { assert more[|errors|] == e; }
  }

  lemma AttemptKeeps(t: Servos, t': Servos, ops: seq<Operation>, n: nat, back: bool, errors: seq<Error>, error: Option<Error>)
    requires n < |ops| && Separate(ops) && ReachedUnless(t, ops, n, back, errors)
    requires Touched(t, t', ops[n].id, ops[n].p)
    requires if error.Some? then Blames(error.value, ops[n].id, ops[n].p) else Holds(t', ops[n].id, ops[n].p, Goal(ops[n], back))
    ensures ReachedUnless(t', ops, n + 1, back, if error.Some? then errors + [error.value] else errors)
  {
    hide Blamed, Blames, Touched, Disturbs;
    var errors' := if error.Some? then errors + [error.value] else errors;
    forall i | 0 <= i <= n
      ensures Holds(t', ops[i].id, ops[i].p, Goal(ops[i], back)) || Blamed(errors', ops[i].id, ops[i].p)
    {
      if error.Some? { BlamedStays(errors, error.value, ops[i].id, ops[i].p); }
      if i < n && Holds(t, ops[i].id, ops[i].p, Goal(ops[i], back)) {
        Undisturbed(t, t', ops[n].id, ops[n].p, ops[i].id, ops[i].p, Goal(ops[i], back));
      }
    }
  }

  lemma ErrorsMore(errors: seq<Error>, ops: seq<Operation>, at: seq<nat>, n: nat, e: Error)
    requires ErrorsOf(errors, ops, at) && n < |ops| && Blames(e, ops[n].id, ops[n].p)
    requires forall k | 0 <= k < |at| :: at[k] < n
    ensures ErrorsOf(errors + [e], ops, at + [n])
  {
  }

  /** What a rollback to s leaves: every original sent in plan order, whatever failed; a failure
      for every error and each error of one planned write, in order; and every register of every
      servo as it was, but for those an error blames. */
  ghost predicate RolledBack(s: Servos, s': Servos, ops: seq<Operation>, errors: seq<Error>) {
    && (exists at :: ErrorsOf(errors, ops, at))
    && SameServos(s, s')
    && forall id, p: Parameter | id in s && !Blamed(errors, id, p) :: Holds(s', id, p, s[id].regs[p])
  }

  lemma AllBack(s: Servos, s': Servos, ops: seq<Operation>, errors: seq<Error>, at: seq<nat>)
    requires Originals(s, ops) && SameServos(s, s') && OthersKept(s, s', ops)
    requires ReachedUnless(s', ops, |ops|, true, errors) && ErrorsOf(errors, ops, at)
    ensures RolledBack(s, s', ops, errors)
  {
    hide Blamed, ErrorsOf, SameServos;
    forall id, p: Parameter | id in s && !Blamed(errors, id, p) ensures Holds(s', id, p, s[id].regs[p]) {
      if Plans(ops, id, p) {
        var i :| 0 <= i < |ops| && ops[i].id == id && ops[i].p == p;
        assert Holds(s, ops[i].id, ops[i].p, ops[i].original);
        assert Holds(s', ops[i].id, ops[i].p, Goal(ops[i], true));
      }
    }
  }

  lemma NothingBlamed(s: Servos, s': Servos, ops: seq<Operation>)
    requires RolledBack(s, s', ops, [])
    ensures s' == s
  {
    hide Blames, ErrorsOf;
    forall id | id in s ensures s'[id] == s[id] {
      forall p: Parameter ensures s'[id].regs[p] == s[id].regs[p] { assert !Blamed([], id, p) && Holds(s', id, p, s[id].regs[p]); }
      SameRegisters(s[id].regs, s'[id].regs);
    }
  }

  // The originals of a plan made on servos whose registers are in range fit their registers.
  lemma OriginalFits(s: Servos, ops: seq<Operation>, i: nat)
    requires InRange(s) && Originals(s, ops) && i < |ops|
    ensures ops[i].id in s && Fits(ops[i].p, ops[i].original)
  {
    assert Holds(s, ops[i].id, ops[i].p, ops[i].original);
    assert Fits(ops[i].p, s[ops[i].id].regs[ops[i].p]);
  }

  // Every original in plan order, failures notwithstanding.
  method Rollback(io: Bus, ghost s: Servos, operations: seq<Operation>) returns (errors: seq<Error>)
    requires WellPlanned(s, operations) && InRange(s) && InRange(io.servos)
    requires SameServos(s, io.servos) && OthersKept(s, io.servos, operations)
    modifies io
    ensures io.sent == old(io.sent) + Rewrites(operations, true)
    ensures |errors| <= io.losses - old(io.losses)
    ensures RolledBack(s, io.servos, operations, errors)
    ensures errors == [] ==> io.servos == s
  {
    hide OthersKept, Touched, Originals, Separate, ReachedUnless, ErrorsOf, RolledBack, InRange, SameServos;
    errors := [];
    ghost var at: seq<nat> := [];
    assert ErrorsOf([], operations, []) && ReachedUnless(io.servos, operations, 0, true, []) by { NothingYet(io.servos, operations); }
    assert io.sent == old(io.sent) + Rewrites(operations[..0], true);
    var i := 0;
    while i < |operations|
      invariant 0 <= i <= |operations| && InRange(io.servos) && |errors| <= io.losses - old(io.losses)
      invariant SameServos(s, io.servos) && OthersKept(s, io.servos, operations)
      invariant ErrorsOf(errors, operations, at) && forall k | 0 <= k < |at| :: at[k] < i
      invariant ReachedUnless(io.servos, operations, i, true, errors)
      invariant io.sent == old(io.sent) + Rewrites(operations[..i], true)
    {
      var op := operations[i];
      ghost var before := io.servos;
      OriginalFits(s, operations, i);
      SameKeys(s, before);
      var error := WriteParameter(io, op.id, op.p, op.original);
      WriteKeepsOthers(s, before, io.servos, operations, i);
      SameKeys(s, io.servos);
      AttemptKeeps(before, io.servos, operations, i, true, errors, error);
      RewritesMore(operations, i, true);
      if error.Some? {
        ErrorsMore(errors, operations, at, i, error.value);
        errors, at := errors + [error.value], at + [i];
      }
      i := i + 1;
    }
    assert operations[..i] == operations;
    AllBack(s, io.servos, operations, errors, at);
    if errors == [] { NothingBlamed(s, io.servos, operations); }
  }

  lemma NothingYet(s: Servos, ops: seq<Operation>)
    ensures ErrorsOf([], ops, []) && ReachedUnless(s, ops, 0, true, [])
  {
  }

  lemma SameKeys(s: Servos, s': Servos)
    requires SameServos(s, s')
    ensures s'.Keys == s.Keys
  {
  }

  // What an apply that failed in one of its writes leaves, on the servos and on the bus.
  ghost predicate Undone(s: Servos, s': Servos, ops: seq<Operation>, r: ApplyResult, before: seq<Request>, after: seq<Request>) {
    && r.changedCount < |ops| && |r.errors| > 0
    && after == before + Rewrites(ops[..r.changedCount + 1], false) + Rewrites(ops, true)
    && Blames(r.errors[0], ops[r.changedCount].id, ops[r.changedCount].p)
    && RolledBack(s, s', ops, r.errors[1..]) && (r.rollbackOk <==> |r.errors| == 1)
  }

  // The write of operation i failed: the failing operation included, everything is rewritten.
  method Undo(io: Bus, ghost s: Servos, operations: seq<Operation>, i: nat, unchangedCount: nat, error: Error,
              ghost sent: seq<Request>)
    returns (result: ApplyResult)
    requires WellPlanned(s, operations) && InRange(s) && InRange(io.servos) && i < |operations|
    requires SameServos(s, io.servos) && OthersKept(s, io.servos, operations)
    requires Blames(error, operations[i].id, operations[i].p)
    requires io.sent == sent + Rewrites(operations[..i + 1], false)
    modifies io
    ensures Undone(s, io.servos, operations, result, sent, io.sent)
    ensures !result.ok && result.rollbackAttempted && result.changedCount == i
    ensures 1 <= |result.errors| <= io.losses - old(io.losses) + 1
    ensures (result.rollbackOk <==> |result.errors| == 1) && (result.rollbackOk ==> io.servos == s)
  {
    hide WellPlanned, InRange, SameServos, OthersKept, Blames, RolledBack, Rewrites;
    var rollbackErrors := Rollback(io, s, operations);
    result := ApplyResult(false, i, unchangedCount, true, rollbackErrors == [], [error] + rollbackErrors);
    assert result.errors[1..] == rollbackErrors;
  }

  // Every desired value fits its register.
  ghost predicate DesiredFit(ops: seq<Operation>) {
    forall i | 0 <= i < |ops| :: Fits(ops[i].p, ops[i].desired)
  }

  // The writes of a plan, each read back; the first failure undoes them all.
  method CarryOut(io: Bus, operations: seq<Operation>, unchangedCount: nat) returns (result: ApplyResult)
    requires WellPlanned(io.servos, operations) && InRange(io.servos)
    modifies io
    ensures result.ok ==>
              && SameServos(old(io.servos), io.servos) && OthersKept(old(io.servos), io.servos, operations)
              && Reached(io.servos, operations, |operations|, false)
              && result == ApplyResult(true, |operations|, unchangedCount, false, false, [])
              && io.sent == old(io.sent) + Rewrites(operations, false)
    ensures !result.ok ==> result.rollbackAttempted && |result.errors| > 0
                           && Undone(old(io.servos), io.servos, operations, result, old(io.sent), io.sent)
    ensures !result.ok ==> |result.errors| - (if DesiredFit(operations) then 0 else 1) <= io.losses - old(io.losses)
    ensures io.losses >= old(io.losses)
    ensures !result.ok ==> (result.rollbackOk <==> |result.errors| == 1) && (result.rollbackOk ==> io.servos == old(io.servos))
  {
    hide OthersKept, Touched, WellPlanned, Reached, Undone, InRange, SameServos, Blames, Rewrites, DesiredFit;
    ghost var s := io.servos;
    NothingWritten(s, operations);
    var i := 0;
    while i < |operations|
      invariant 0 <= i <= |operations| && InRange(io.servos) && io.losses >= old(io.losses)
      invariant SameServos(s, io.servos) && OthersKept(s, io.servos, operations)
      invariant Reached(io.servos, operations, i, false)
      invariant io.sent == old(io.sent) + Rewrites(operations[..i], false)
    {
      var op := operations[i];
      ghost var before := io.servos;
      PlannedOriginal(s, before, operations, i);
      var error := WriteParameter(io, op.id, op.p, op.desired);
      WriteKeepsOthers(s, before, io.servos, operations, i);
      RewritesMore(operations, i, false);
      if error.Some? {
        assert DesiredFit(operations) ==> Fits(op.p, op.desired) by { FitsDesired(operations, i); }
        WriteErrorBlames(error.value, op.id, op.p);
        result := Undo(io, s, operations, i, unchangedCount, error.value, old(io.sent));
        return;
      }
      assert Separate(operations) by { Parts(s, operations); }
      WriteReaches(s, before, io.servos, operations, i, false);
      i := i + 1;
    }
    assert operations[..i] == operations;
    return ApplyResult(true, i, unchangedCount, false, false, []);
  }

  lemma FitsDesired(ops: seq<Operation>, i: nat)
    requires i < |ops|
    ensures DesiredFit(ops) ==> Fits(ops[i].p, ops[i].desired)
  {
  }

  /** Applies a dump. Whatever requests and replies are lost: with `ok` the dump is carried out
      and nothing else is changed; with `rollbackOk` nothing at all is changed, not even by the
      failed write or by what operating_mode reset; otherwise, unless a rollback was attempted,
      no write was ever issued. A rollback sends every original whatever fails, restores every
      register its errors do not blame, and fails only with a further loss. Without a loss the
      whole succeeds on every dump it may be applied to whose values fit their registers, and
      with one loss nothing is left changed. */
  method Apply(io: Bus, dump: seq<MotorRecord>) returns (result: ApplyResult)
    requires WellFormed(dump) && InRange(io.servos)
    modifies io
    ensures result.ok ==> Carried(old(io.servos), io.servos, dump)
    ensures result.ok ==> AllAccepted(old(io.servos), dump)
    ensures result.ok ==> result.changedCount == |Plan(old(io.servos), dump, |dump|)|
                          && result.unchangedCount == Unchanged(old(io.servos), dump, |dump|) && result.errors == []
                          && io.sent == old(io.sent) + Rewrites(Plan(old(io.servos), dump, |dump|), false)
    ensures result.rollbackOk ==> result.rollbackAttempted && io.servos == old(io.servos)
    ensures !result.ok && !result.rollbackAttempted ==>
              && io.servos == old(io.servos) && io.sent == old(io.sent) && |result.errors| == 1
              && Justified(old(io.servos), dump, result.errors[0], io.losses > old(io.losses))
              && CountedSoFar(old(io.servos), dump, result.errors[0], result.unchangedCount)
    ensures result.rollbackAttempted ==> !result.ok && |result.errors| > 0
    ensures result.rollbackAttempted ==>
              && AllAccepted(old(io.servos), dump)
              && Undone(old(io.servos), io.servos, Plan(old(io.servos), dump, |dump|), result, old(io.sent), io.sent)
    ensures result.rollbackAttempted ==> |result.errors| - 1 <= io.losses - old(io.losses)
    ensures result.rollbackAttempted && Appliable(old(io.servos), dump) ==> |result.errors| <= io.losses - old(io.losses)
    ensures io.losses == old(io.losses) && Appliable(old(io.servos), dump) ==> result.ok
    ensures io.losses <= old(io.losses) + 1 && Appliable(old(io.servos), dump) && !result.ok ==> io.servos == old(io.servos)
  {
    ghost var s := io.servos;
    var error, operations, unchangedCount := Preflight(io, dump);
    if error.Some? { return ApplyResult(false, 0, unchangedCount, false, false, [error.value]); }
    hide WellPlanned, Reached, Undone, InRange, AllAccepted, Carried, Justified, CountedSoFar, Rewrites, Plan, Unchanged, Appliable, DesiredFit,
         SameServos, OthersKept, WellFormed;
    assert WellPlanned(s, operations) by { PlanIsWellPlanned(s, dump, |dump|); }
    if Appliable(s, dump) { PlanFits(s, dump); }
    ghost var losses := io.losses;
    result := CarryOut(io, operations, unchangedCount);
    if result.ok { PlanCarriesOut(s, io.servos, dump); }
  }

  lemma Parts(s: Servos, ops: seq<Operation>)
    requires WellPlanned(s, ops)
    ensures Originals(s, ops) && Separate(ops)
  {
  }

  lemma PlannedOriginal(s: Servos, t: Servos, ops: seq<Operation>, i: nat)
    requires InRange(s) && WellPlanned(s, ops) && SameServos(s, t) && i < |ops|
    ensures ops[i].id in t && Fits(ops[i].p, ops[i].original)
  {
    hide Fits;
    OriginalFits(s, ops, i);
  }

  lemma WriteErrorBlames(e: Error, id: nat, p: Parameter)
    requires e in {CannotWrite(id, p), CannotRead(id, p), ReadbackDiffers(id, p)}
    ensures Blames(e, id, p)
  {
  }

  lemma NothingWritten(s: Servos, ops: seq<Operation>)
    ensures OthersKept(s, s, ops) && SameServos(s, s) && Reached(s, ops, 0, false)
    ensures Rewrites(ops[..0], false) == []
  {
  }

  ghost predicate Appliable(s: Servos, dump: seq<MotorRecord>) {
    && AllAccepted(s, dump)
    && (forall k, i | 0 <= k < |dump| && 0 <= i < |dump[k].parameters| ::
          Fits(dump[k].parameters[i].p, dump[k].parameters[i].value))
  }

  lemma PlannedFits(s: Servos, dump: seq<MotorRecord>, op: Operation)
    requires WellFormed(dump) && InRange(s) && Appliable(s, dump) && op in Plan(s, dump, |dump|)
    ensures op.id in s && Fits(op.p, op.desired)
  {
    PlanIsWellPlanned(s, dump, |dump|);
    var k :| 0 <= k < |dump| && FromMotor(s, dump, k, op);
    PlannedByOneMotor(s, dump, k, op);
    if r :| r in dump[k].parameters && r == ParameterValue(op.p, op.desired) {
      var i :| 0 <= i < |dump[k].parameters| && dump[k].parameters[i] == r;
      assert Fits(dump[k].parameters[i].p, dump[k].parameters[i].value);
    } else {
      assert Fits(op.p, s[op.id].regs[op.p]);
    }
  }

  lemma PlanFits(s: Servos, dump: seq<MotorRecord>)
    requires WellFormed(dump) && InRange(s) && Appliable(s, dump)
    ensures DesiredFit(Plan(s, dump, |dump|))
  {
    var ops := Plan(s, dump, |dump|);
    forall i | 0 <= i < |ops| ensures Fits(ops[i].p, ops[i].desired) { PlannedFits(s, dump, ops[i]); }
  }
}
