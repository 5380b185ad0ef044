/** When a flags-derived payload may overwrite the live one (alarm_flags_guard.py). */
module FlagsGuard {
  import opened Bytes
  import opened AreaState
  import opened Settings

  function CoerceAfterDisarm(decoded: Payload): Payload {
    if decoded.Armed? then Disarmed else decoded
  }

  /** What a block tells a refresh after a disarm: an alarm if the alarm bit of area 1 is set, else unset,
      whatever its armed bits say. */
  function Told(flags: seq<byte>): Payload { if LayoutBit(flags, 0, 1, 1) then Triggered else Disarmed }

  lemma RefreshIsTold(flags: seq<byte>, s: Settings)
    ensures CoerceAfterDisarm(DecodeAreaHaState(flags, 1, 1, s)) == Told(flags)
  {
    DecodedByLayout(flags, 1, 1, s);
    hide DecodeAreaHaState, LayoutBit;
  }

  predicate RoundTripNeeded(current: Option<Payload>, afterArm: bool, afterDisarm: bool) {
    if afterArm then false
    else if afterDisarm then current != Some(Disarmed)
    else true
  }

  predicate MayReplaceLive(current: Option<Payload>, decoded: Payload, afterArm: bool, afterDisarm: bool) {
    if current == Some(decoded) then false
    else if afterArm && decoded == Disarmed then false
    else if afterDisarm && decoded.Armed? then false
    else if current == Some(Triggered) && decoded.Armed? then false
    else if current.Some? && current.value.Transient() && decoded != Triggered then
      afterDisarm && decoded == Disarmed
    else true
  }

  /** What the guard amounts to for payloads that a flag block can decode to. Read in passing, it
      lets a settled state through unless a delay is running (then only an alarm) or an alarm is
      (then only disarmed). After a disarm, what is left by the coercion always gets through if it
      is news. After an arm the block is never read, and disarmed would not get through. */
  lemma SettledGuard(current: Payload, decoded: Payload)
    requires !decoded.Transient()
    ensures MayReplaceLive(Some(current), decoded, false, false) <==>
            && decoded != current
            && (current.Transient() ==> decoded == Triggered)
            && (current == Triggered ==> decoded == Disarmed)
    ensures MayReplaceLive(Some(current), CoerceAfterDisarm(decoded), false, true) <==>
            CoerceAfterDisarm(decoded) != current
    ensures !CoerceAfterDisarm(decoded).Armed?
    ensures decoded.Armed? ==> !MayReplaceLive(Some(current), decoded, false, true)
    ensures !RoundTripNeeded(Some(current), true, false)
    ensures MayReplaceLive(Some(current), decoded, true, false) <==>
            decoded != Disarmed && MayReplaceLive(Some(current), decoded, false, false)
    ensures MayReplaceLive(None, decoded, false, false)
  {
  }
}
