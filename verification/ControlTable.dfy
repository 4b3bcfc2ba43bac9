/** apps/bus/dxl_parameters.hpp: the registers the loader knows, and their bytes. */
module ControlTable {
  type Byte = x: int | 0 <= x < 256

  const TABLE_SIZE := 31

  // A parameter is its row in the table, which is in address order.
  type Parameter = p: nat | p < TABLE_SIZE

  const BAUD_RATE: Parameter := 0
  const RETURN_DELAY_TIME: Parameter := 1
  const DRIVE_MODE: Parameter := 2
  const OPERATING_MODE: Parameter := 3
  const SECONDARY_ID: Parameter := 4
  const PROTOCOL_TYPE: Parameter := 5
  const HOMING_OFFSET: Parameter := 6
  const MOVING_THRESHOLD: Parameter := 7
  const TEMPERATURE_LIMIT: Parameter := 8
  const MAX_VOLTAGE_LIMIT: Parameter := 9
  const MIN_VOLTAGE_LIMIT: Parameter := 10
  const PWM_LIMIT: Parameter := 11
  const CURRENT_LIMIT: Parameter := 12
  const VELOCITY_LIMIT: Parameter := 13
  const MAX_POSITION_LIMIT: Parameter := 14
  const MIN_POSITION_LIMIT: Parameter := 15
  const EXTERNAL_PORT_MODE_1: Parameter := 16
  const EXTERNAL_PORT_MODE_2: Parameter := 17
  const EXTERNAL_PORT_MODE_3: Parameter := 18
  const STARTUP_CONFIGURATION: Parameter := 19
  const SHUTDOWN: Parameter := 20
  const STATUS_RETURN_LEVEL: Parameter := 21
  const VELOCITY_I_GAIN: Parameter := 22
  const VELOCITY_P_GAIN: Parameter := 23
  const POSITION_D_GAIN: Parameter := 24
  const POSITION_I_GAIN: Parameter := 25
  const POSITION_P_GAIN: Parameter := 26
  const FEEDFORWARD_2ND_GAIN: Parameter := 27
  const FEEDFORWARD_1ST_GAIN: Parameter := 28
  const PROFILE_ACCELERATION: Parameter := 29
  const PROFILE_VELOCITY: Parameter := 30

  function Addr(p: Parameter): nat {
    if p == BAUD_RATE then 8
    else if p == RETURN_DELAY_TIME then 9
    else if p == DRIVE_MODE then 10
    else if p == OPERATING_MODE then 11
    else if p == SECONDARY_ID then 12
    else if p == PROTOCOL_TYPE then 13
    else if p == HOMING_OFFSET then 20
    else if p == MOVING_THRESHOLD then 24
    else if p == TEMPERATURE_LIMIT then 31
    else if p == MAX_VOLTAGE_LIMIT then 32
    else if p == MIN_VOLTAGE_LIMIT then 34
    else if p == PWM_LIMIT then 36
    else if p == CURRENT_LIMIT then 38
    else if p == VELOCITY_LIMIT then 44
    else if p == MAX_POSITION_LIMIT then 48
    else if p == MIN_POSITION_LIMIT then 52
    else if p == EXTERNAL_PORT_MODE_1 then 56
    else if p == EXTERNAL_PORT_MODE_2 then 57
    else if p == EXTERNAL_PORT_MODE_3 then 58
    else if p == STARTUP_CONFIGURATION then 60
    else if p == SHUTDOWN then 63
    else if p == STATUS_RETURN_LEVEL then 68
    else if p == VELOCITY_I_GAIN then 76
    else if p == VELOCITY_P_GAIN then 78
    else if p == POSITION_D_GAIN then 80
    else if p == POSITION_I_GAIN then 82
    else if p == POSITION_P_GAIN then 84
    else if p == FEEDFORWARD_2ND_GAIN then 88
    else if p == FEEDFORWARD_1ST_GAIN then 90
    else if p == PROFILE_ACCELERATION then 108
    else 112
  }

  function Len(p: Parameter): (n: nat)
    ensures n in {1, 2, 4}
  {
    if p in {MAX_VOLTAGE_LIMIT, MIN_VOLTAGE_LIMIT, PWM_LIMIT, CURRENT_LIMIT,
             VELOCITY_I_GAIN, VELOCITY_P_GAIN, POSITION_D_GAIN, POSITION_I_GAIN,
             POSITION_P_GAIN, FEEDFORWARD_2ND_GAIN, FEEDFORWARD_1ST_GAIN} then 2
    else if p in {HOMING_OFFSET, MOVING_THRESHOLD, VELOCITY_LIMIT, MAX_POSITION_LIMIT,
                  MIN_POSITION_LIMIT, PROFILE_ACCELERATION, PROFILE_VELOCITY} then 4
    else 1
  }

  predicate Signed(p: Parameter) {
    p == HOMING_OFFSET
  }

  predicate Loadable(p: Parameter) {
    p !in {BAUD_RATE, SECONDARY_ID, PROTOCOL_TYPE, STARTUP_CONFIGURATION, STATUS_RETURN_LEVEL}
  }

  function MinFirmware(p: Parameter): nat {
    if p == STARTUP_CONFIGURATION then 45 else 0
  }

  const MODEL_XM430 := 1020
  const MODEL_XM540 := 1120

  predicate SupportsModel(p: Parameter, model: nat) {
    if model == MODEL_XM430 then p !in {EXTERNAL_PORT_MODE_1, EXTERNAL_PORT_MODE_2, EXTERNAL_PORT_MODE_3}
    else model == MODEL_XM540
  }

  // The registers a write of operating_mode resets.
  predicate IsModeReset(p: Parameter) {
    p in {VELOCITY_I_GAIN, VELOCITY_P_GAIN, POSITION_D_GAIN, POSITION_I_GAIN, POSITION_P_GAIN,
          FEEDFORWARD_2ND_GAIN, FEEDFORWARD_1ST_GAIN, PROFILE_ACCELERATION, PROFILE_VELOCITY}
  }

  lemma NextAddress(p: Parameter)
    requires p + 1 < TABLE_SIZE
    ensures Addr(p) + Len(p) <= Addr(p + 1)
  {
  }

  // The registers lie in address order and do not overlap.
  lemma {:induction false} Ascending(p: Parameter, q: Parameter)
    requires p < q
    ensures Addr(p) + Len(p) <= Addr(q)
    decreases q
  {
    NextAddress(q - 1);
    if p < q - 1 {
      Ascending(p, q - 1);
    }
  }

  // ----- Register contents -----

  // static_cast<uint32_t> of a 64-bit value
  function Unsigned32(value: int): nat {
    value % 0x1_0000_0000
  }

  // The low bytes of a word that a register keeps.
  function Wrap(p: Parameter, word: nat): nat {
    if Len(p) == 1 then word % 0x100 else if Len(p) == 2 then word % 0x1_0000 else word % 0x1_0000_0000
  }

  // The value a register's unsigned content stands for.
  function Value(p: Parameter, raw: nat): int {
    if Signed(p) && raw >= 0x8000_0000 then raw - 0x1_0000_0000 else raw
  }

  // The value a register stands for once `value` was written to it.
  function Stored(p: Parameter, value: int): int {
    Value(p, Wrap(p, Unsigned32(value)))
  }

  predicate Fits(p: Parameter, value: int) {
    if Signed(p) then -0x8000_0000 <= value <= 0x7FFF_FFFF
    else 0 <= value < if Len(p) == 1 then 0x100 else if Len(p) == 2 then 0x1_0000 else 0x1_0000_0000
  }

  /** A written value reads back unchanged exactly when it fits its register. */
  lemma ReadbackExact(p: Parameter, value: int)
    ensures Fits(p, Stored(p, value))
    ensures Stored(p, value) == value <==> Fits(p, value)
  {
  }

  // ----- Little-endian bytes -----

  function Pow256(n: nat): (p: nat)
    ensures p > 0
  {
    if n == 0 then 1 else 256 * Pow256(n - 1)
  }

  // raw >> (8 * i)
  function ShiftBytes(raw: nat, i: nat): nat {
    if i == 0 then raw else ShiftBytes(raw, i - 1) / 256
  }

  function EncodeBytes(raw: nat, n: nat): (data: seq<Byte>)
    ensures |data| == n
  {
    if n == 0 then [] else [raw % 256] + EncodeBytes(raw / 256, n - 1)
  }

  function DecodeBytes(data: seq<Byte>): (raw: nat)
    ensures raw < Pow256(|data|)
  {
    if data == [] then 0 else data[0] + 256 * DecodeBytes(data[1..])
  }

  lemma {:induction false} EncodedByte(raw: nat, n: nat, i: nat)
    requires i < n
    ensures EncodeBytes(raw, n)[i] == ShiftBytes(raw, i) % 256
  {
    if i > 0 {
      EncodedByte(raw / 256, n - 1, i - 1);
      ShiftFromFirst(raw, i);
    }
  }

  lemma {:induction false} ShiftFromFirst(raw: nat, i: nat)
    requires i > 0
    ensures ShiftBytes(raw, i) == ShiftBytes(raw / 256, i - 1)
  {
    if i > 1 { ShiftFromFirst(raw, i - 1); }
  }

  lemma {:induction false} DecodeEncode(raw: nat, n: nat) returns (q: nat)
    ensures raw == DecodeBytes(EncodeBytes(raw, n)) + Pow256(n) * q
  {
    if n == 0 {
      q := raw;
    } else {
      q := DecodeEncode(raw / 256, n - 1);
      var rest := DecodeBytes(EncodeBytes(raw / 256, n - 1));
      assert EncodeBytes(raw, n)[1..] == EncodeBytes(raw / 256, n - 1);
      assert 256 * (rest + Pow256(n - 1) * q) == 256 * rest + Pow256(n) * q;
    }
  }

  lemma Powers()
    ensures Pow256(1) == 0x100 && Pow256(2) == 0x1_0000 && Pow256(4) == 0x1_0000_0000
  {
    assert Pow256(3) == 0x100_0000;
  }

  /** The bytes of a word, cut to a register's length, hold its low bytes. */
  lemma KeptBytes(p: Parameter, word: nat)
    ensures DecodeBytes(EncodeBytes(word, Len(p))) == Wrap(p, word)
  {
    Powers();
    var q := DecodeEncode(word, Len(p));
  }
}
