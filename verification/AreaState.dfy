/** Alarm payloads, and how flag blocks and AREA octets decode to them (area_state.py). */
module AreaState {
  import opened Bytes
  import opened Settings
  import Frames

  /** The states Home Assistant knows; `Armed` covers the "armed_" family. */
  datatype Payload = Disarmed | Arming | Pending | Triggered | Armed(mode: HaMode)
  {
    predicate Transient() { this == Arming || this == Pending }
  }

  const FLAG_ALARM: nat := 0
  const FLAG_ARMED: nat := 21
  const FLAG_FULL_ARMED: nat := 22
  const FLAG_PART_ARMED: nat := 23
  const FLAG_FORCE_ARMED: nat := 26
  const FLAG_PART_ARM_1: nat := 50
  const HOUSE_AREA_NUMBER: byte := 1

  const AREA_MAP: map<int, nat> := map[12 := 2, 24 := 2, 48 := 4, 64 := 4, 88 := 8, 168 := 16, 640 := 64]

  /** One bit an area, in whole octets: a single octet on every panel listed up to 88 zones. */
  function AreaSizeForZones(zoneCount: int): (r: Option<nat>)
    ensures r.None? <==> zoneCount !in AREA_MAP
    ensures r.Some? ==> 8 * (r.value - 1) < AREA_MAP[zoneCount] <= 8 * r.value
    ensures r == Some(1) <==> zoneCount in {12, 24, 48, 64, 88}
    ensures (r == Some(2) <==> zoneCount == 168) && (r == Some(8) <==> zoneCount == 640)
    ensures r.Some? ==> r.value in {1, 2, 8}
  {
    if zoneCount in AREA_MAP then Some((AREA_MAP[zoneCount] + 7) / 8) else None
  }

  /** Bit `n` of a number, from the least significant: what `value & (1 << n)` tests. */
  predicate TestBit(value: nat, n: nat) {
    if n == 0 then value % 2 == 1 else TestBit(value / 2, n - 1)
  }

  function LittleEndian(chunk: seq<byte>): nat {
    if chunk == [] then 0 else chunk[0] as nat + 256 * LittleEndian(chunk[1..])
  }

  /** Python's slice: positions past the end are dropped. */
  function Slice(s: seq<byte>, from: nat, to: nat): seq<byte>
    requires from <= to
  {
    if from >= |s| then [] else if to >= |s| then s[from..] else s[from..to]
  }

  /** Where the chunk of flag `index` starts. */
  function Offset(index: nat, areaSize: nat): nat { index * areaSize }

  predicate ChunkFlag(flags: seq<byte>, from: nat, areaSize: nat, area: nat)
    requires area >= 1
  {
    var chunk := Slice(flags, from, from + areaSize);
    |chunk| >= areaSize && TestBit(LittleEndian(chunk), area - 1)
  }

  predicate FlagBit(flags: seq<byte>, index: nat, areaSize: nat, area: nat)
    requires area >= 1
  {
    ChunkFlag(flags, Offset(index, areaSize), areaSize, area)
  }

  lemma EightBitsDown(value: nat, n: nat)
    requires n >= 8
    ensures TestBit(value, n) == TestBit(value / 256, n - 8)
  {
    var v2 := value / 2 / 2;
    assert TestBit(value, n) == TestBit(v2, n - 2);
    var v4 := v2 / 2 / 2;
    assert TestBit(v2, n - 2) == TestBit(v4, n - 4);
    var v6 := v4 / 2 / 2;
    assert TestBit(v4, n - 4) == TestBit(v6, n - 6);
    assert TestBit(v6, n - 6) == TestBit(v6 / 2 / 2, n - 8);
    assert v6 / 2 / 2 == value / 256;
  }

  lemma {:induction false} LowBitsIgnoreHigher(low: nat, high: nat, scale: nat, n: nat)
    requires n < scale
    ensures TestBit(low + Twos(scale) * high, n) == TestBit(low, n)
  {
    assert Twos(scale) * high == 2 * (Twos(scale - 1) * high);
    var rest := Twos(scale - 1) * high;
    assert low + Twos(scale) * high == low + 2 * rest;
    assert (low + 2 * rest) / 2 == low / 2 + rest && (low + 2 * rest) % 2 == low % 2;
    if n > 0 {
      LowBitsIgnoreHigher(low / 2, high, scale - 1, n - 1);
    }
  }

  function Twos(n: nat): nat { if n == 0 then 1 else 2 * Twos(n - 1) }

  /** Area `a` is bit `(a-1) % 8` of octet `(a-1) / 8` of its chunk. */
  lemma {:induction false} LittleEndianBit(chunk: seq<byte>, n: nat)
    requires n < 8 * |chunk|
    ensures TestBit(LittleEndian(chunk), n) == TestBit(chunk[n / 8] as nat, n % 8)
    decreases |chunk|
  {
    var low, high := chunk[0] as nat, LittleEndian(chunk[1..]);
    if n < 8 {
      assert Twos(8) == 256;
      LowBitsIgnoreHigher(low, high, 8, n);
    } else {
      EightBitsDown(low + 256 * high, n);
      assert (low + 256 * high) / 256 == high;
      LittleEndianBit(chunk[1..], n - 8);
      assert (n - 8) / 8 == n / 8 - 1 && (n - 8) % 8 == n % 8;
    }
  }

  lemma ChunkBit(flags: seq<byte>, from: nat, areaSize: nat, area: nat)
    requires 1 <= area <= 8 * areaSize
    ensures ChunkFlag(flags, from, areaSize, area) <==>
            |flags| >= from + areaSize && TestBit(flags[from + (area - 1) / 8] as nat, (area - 1) % 8)
  {
    hide TestBit, LittleEndian;
    if |flags| >= from + areaSize {
      var chunk := Slice(flags, from, from + areaSize);
      assert chunk == flags[from..from + areaSize];
      LittleEndianBit(chunk, area - 1);
    }
  }

  /** The panel's layout: flag `index` of an area is bit `(area-1) % 8` of octet
      `index * areaSize + (area-1)/8`, and clear if the block ends before its chunk does. */
  predicate LayoutBit(flags: seq<byte>, index: nat, areaSize: nat, area: nat)
    requires 1 <= area <= 8 * areaSize
  {
    var from := Offset(index, areaSize);
    |flags| >= from + areaSize && TestBit(flags[from + (area - 1) / 8] as nat, (area - 1) % 8)
  }

  /** The panel's bit layout, for any bitmap width: flag `index` of an area is one bit of one octet,
      and a block too short to hold the whole flag reads as clear. */
  lemma FlagBitLayout(flags: seq<byte>, index: nat, areaSize: nat, area: nat)
    requires 1 <= area <= 8 * areaSize
    ensures FlagBit(flags, index, areaSize, area) <==> LayoutBit(flags, index, areaSize, area)
  {
    hide ChunkFlag, TestBit, Offset;
    ChunkBit(flags, Offset(index, areaSize), areaSize, area);
  }

  function HaStateForPartArmSlot(slot: nat, s: Settings): Payload {
    match s.HaModeForPartArmSlot(slot)
    case None => Armed(Away)
    case Some(mode) => Armed(mode)
  }

  /** A live AREA state octet; unknown ones are not guessed at. */
  function PayloadForAreaState(state: byte, s: Settings): Option<Payload> {
    if state == 6 then Some(HaStateForPartArmSlot(1, s))
    else if state == 7 then Some(HaStateForPartArmSlot(2, s))
    else if state == 0 then Some(Disarmed)
    else if state == 1 || state == 4 then Some(Arming)
    else if state == 2 then Some(Pending)
    else if state == 3 then Some(Armed(Away))
    else if state == 5 then Some(Triggered)
    else None
  }

  /** The mode of a part-arm slot: its label, or away for an unused one. */
  function SlotMode(choice: Label): HaMode {
    match choice
    case Unused => Away
    case For(mode) => mode
  }

  lemma SlotStates(s: Settings)
    ensures HaStateForPartArmSlot(1, s) == Armed(SlotMode(s.partArm1))
    ensures HaStateForPartArmSlot(2, s) == Armed(SlotMode(s.partArm2))
    ensures HaStateForPartArmSlot(3, s) == Armed(SlotMode(s.partArm3))
  {
  }

  /** The payload a frame body carries as a HOUSE AREA push, if it is one that decodes. */
  function AreaPayload(body: seq<byte>, s: Settings): Option<Payload> {
    if |body| < 3 || body[0] != Frames.MSG_AREA || body[1] != HOUSE_AREA_NUMBER then None
    else PayloadForAreaState(body[2], s)
  }

  /** What a known live AREA octet says: 0 unset, 1 and 4 exit delay, 2 entry delay, 3 armed, 5 alarm,
      6 and 7 armed in slot 1 and 2. */
  predicate Says(state: byte, payload: Payload, s: Settings) {
    && (payload == Disarmed <==> state == 0)
    && (payload == Arming <==> state == 1 || state == 4)
    && (payload == Pending <==> state == 2)
    && (payload == Triggered <==> state == 5)
    && (state == 3 ==> payload == Armed(Away))
    && (state == 6 ==> payload == Armed(SlotMode(s.partArm1)))
    && (state == 7 ==> payload == Armed(SlotMode(s.partArm2)))
  }

  /** Every octet decodes to what it says, and one above 7 to nothing. */
  lemma LiveDecode(state: byte, s: Settings)
    ensures PayloadForAreaState(state, s).Some? <==> state <= 7
    ensures state <= 7 ==> Says(state, PayloadForAreaState(state, s).value, s)
  {
  }

  /** An AREA push for area 1 with a known octet. */
  predicate HousePush(body: seq<byte>) { |body| >= 3 && body[0] == 2 && body[1] == 1 && body[2] <= 7 }

  /** Nothing else carries a payload. */
  lemma PushDecode(body: seq<byte>, s: Settings)
    ensures AreaPayload(body, s).Some? <==> HousePush(body)
    ensures HousePush(body) ==> Says(body[2], AreaPayload(body, s).value, s)
  {
  }

  function PartArmSlot(flags: seq<byte>, areaSize: nat, area: nat): Option<nat>
    requires area >= 1
  {
    if FlagBit(flags, FLAG_PART_ARM_1, areaSize, area) then Some(1)
    else if FlagBit(flags, FLAG_PART_ARM_1 + 1, areaSize, area) then Some(2)
    else if FlagBit(flags, FLAG_PART_ARM_1 + 2, areaSize, area) then Some(3)
    else None
  }

  function DecodeAreaHaState(flags: seq<byte>, areaSize: nat, area: nat, s: Settings): Payload
    requires area >= 1
  {
    var armed := FlagBit(flags, FLAG_ARMED, areaSize, area);
    var fullArmed := FlagBit(flags, FLAG_FULL_ARMED, areaSize, area);
    var partArmed := FlagBit(flags, FLAG_PART_ARMED, areaSize, area);
    var forceArmed := FlagBit(flags, FLAG_FORCE_ARMED, areaSize, area);
    if FlagBit(flags, FLAG_ALARM, areaSize, area) then Triggered
    else if !(armed || fullArmed || partArmed || forceArmed) then Disarmed
    else
      match PartArmSlot(flags, areaSize, area)
      case Some(slot) => HaStateForPartArmSlot(slot, s)
      case None => Armed(Away)
  }

  /** A flag block never says that an exit or entry delay is running. */
  lemma FlagsAreSettled(flags: seq<byte>, areaSize: nat, area: nat, s: Settings)
    requires area >= 1
    ensures !DecodeAreaHaState(flags, areaSize, area, s).Transient()
  {
  }

  /** The priority of the decode, on the panel's own layout: the alarm bit wins; with none of the
      four armed bits the area is disarmed; otherwise the lowest part-arm slot names the mode, and
      without one it is a full arm. */
  lemma DecodedByLayout(flags: seq<byte>, areaSize: nat, area: nat, s: Settings)
    requires 1 <= area <= 8 * areaSize
    ensures var decoded := DecodeAreaHaState(flags, areaSize, area, s);
            && (decoded == Triggered <==> LayoutBit(flags, 0, areaSize, area))
            && (decoded == Disarmed <==> !LayoutBit(flags, 0, areaSize, area)
                                         && NoArmedBit(flags, areaSize, area))
            && (decoded.Armed? ==> decoded == LayoutMode(flags, areaSize, area, s))
            && !decoded.Transient()
  {
    hide FlagBit, LayoutBit, HaStateForPartArmSlot, SlotMode;
    FlagBitLayout(flags, FLAG_ALARM, areaSize, area);
    FlagBitLayout(flags, FLAG_ARMED, areaSize, area);
    FlagBitLayout(flags, FLAG_FULL_ARMED, areaSize, area);
    FlagBitLayout(flags, FLAG_PART_ARMED, areaSize, area);
    FlagBitLayout(flags, FLAG_FORCE_ARMED, areaSize, area);
    FlagBitLayout(flags, FLAG_PART_ARM_1, areaSize, area);
    FlagBitLayout(flags, FLAG_PART_ARM_1 + 1, areaSize, area);
    FlagBitLayout(flags, FLAG_PART_ARM_1 + 2, areaSize, area);
    SlotStates(s);
  }

  function LayoutMode(flags: seq<byte>, areaSize: nat, area: nat, s: Settings): Payload
    requires 1 <= area <= 8 * areaSize
  {
    if LayoutBit(flags, 50, areaSize, area) then Armed(SlotMode(s.partArm1))
    else if LayoutBit(flags, 51, areaSize, area) then Armed(SlotMode(s.partArm2))
    else if LayoutBit(flags, 52, areaSize, area) then Armed(SlotMode(s.partArm3))
    else Armed(Away)
  }

  predicate NoArmedBit(flags: seq<byte>, areaSize: nat, area: nat)
    requires 1 <= area <= 8 * areaSize
  {
    && !LayoutBit(flags, 21, areaSize, area)
    && !LayoutBit(flags, 22, areaSize, area)
    && !LayoutBit(flags, 23, areaSize, area)
    && !LayoutBit(flags, 26, areaSize, area)
  }

  /** The two sources of truth agree: a block in which the panel's bit layout says part-armed in
      slot 1 or 2 alone, and not in alarm, decodes to what the live AREA octet 6 or 7 decodes to;
      and when no mode is assigned twice, that is the mode whose arm command selects the slot. */
  lemma SnapshotAgreesWithLive(flags: seq<byte>, areaSize: nat, area: nat, slot: nat, s: Settings)
    requires 1 <= area <= 8 * areaSize
    requires slot == 1 || slot == 2
    requires !LayoutBit(flags, FLAG_ALARM, areaSize, area)
    requires LayoutBit(flags, FLAG_PART_ARMED, areaSize, area)
    requires LayoutBit(flags, FLAG_PART_ARM_1, areaSize, area) <==> slot == 1
    requires LayoutBit(flags, FLAG_PART_ARM_1 + 1, areaSize, area) <==> slot == 2
    ensures Some(DecodeAreaHaState(flags, areaSize, area, s)) == PayloadForAreaState((5 + slot) as byte, s)
    ensures UniqueModes(UnlessAway(s.Labels())) && s.HaModeForPartArmSlot(slot).Some? ==>
              exists mode :: DecodeAreaHaState(flags, areaSize, area, s) == Armed(mode)
                             && s.ModeByteForHaMode(mode) == Some(slot as byte)
  {
    FlagBitLayout(flags, FLAG_ALARM, areaSize, area);
    FlagBitLayout(flags, FLAG_PART_ARMED, areaSize, area);
    FlagBitLayout(flags, FLAG_PART_ARM_1, areaSize, area);
    FlagBitLayout(flags, FLAG_PART_ARM_1 + 1, areaSize, area);
    ArmModesRoundTripIffUnique(s);
    hide FlagBit, TestBit;
  }

  /** A one-octet-wide block in which area 1 has just these flags. */
  function HouseBlock(indices: set<nat>): (r: seq<byte>)
    ensures |r| == Frames.AREA_FLAGS_COUNT
  {
    seq(Frames.AREA_FLAGS_COUNT, i requires 0 <= i < Frames.AREA_FLAGS_COUNT => if i in indices then 1 else 0)
  }

  lemma HouseBlockLayout(indices: set<nat>, index: nat)
    requires index < Frames.AREA_FLAGS_COUNT
    ensures LayoutBit(HouseBlock(indices), index, 1, 1) <==> index in indices
  {
    var flags := HouseBlock(indices);
    assert Offset(index, 1) == index && (1 - 1) / 8 == 0;
  }

  /** Blocks that read triggered, disarmed and fully armed. */
  lemma HouseBlocksDecode(s: Settings)
    ensures DecodeAreaHaState(HouseBlock({FLAG_ALARM}), 1, 1, s) == Triggered
    ensures DecodeAreaHaState(HouseBlock({}), 1, 1, s) == Disarmed
    ensures DecodeAreaHaState(HouseBlock({FLAG_FULL_ARMED}), 1, 1, s) == Armed(Away)
  {
    hide HouseBlock, LayoutBit, DecodeAreaHaState;
    HouseBlockLayout({FLAG_ALARM}, FLAG_ALARM);
    DecodedByLayout(HouseBlock({FLAG_ALARM}), 1, 1, s);
    HouseBlockLayout({}, FLAG_ALARM);
    HouseBlockLayout({}, FLAG_ARMED);
    HouseBlockLayout({}, FLAG_FULL_ARMED);
    HouseBlockLayout({}, FLAG_PART_ARMED);
    HouseBlockLayout({}, FLAG_FORCE_ARMED);
    DecodedByLayout(HouseBlock({}), 1, 1, s);
    HouseBlockLayout({FLAG_FULL_ARMED}, FLAG_ALARM);
    HouseBlockLayout({FLAG_FULL_ARMED}, FLAG_FULL_ARMED);
    HouseBlockLayout({FLAG_FULL_ARMED}, FLAG_PART_ARM_1);
    HouseBlockLayout({FLAG_FULL_ARMED}, FLAG_PART_ARM_1 + 1);
    HouseBlockLayout({FLAG_FULL_ARMED}, FLAG_PART_ARM_1 + 2);
    DecodedByLayout(HouseBlock({FLAG_FULL_ARMED}), 1, 1, s);
  }
}
