/** The install-time settings the bridge logic depends on (config.py). */
module Settings {
  import opened Bytes

  const FULL_ARM_AWAY_MODE_BYTE: byte := 0
  const MIN_CHECKIN_INTERVAL: real := 5.0
  const MAX_CHECKIN_INTERVAL: real := 30.0
  const MIN_CHECKIN_PATIENCE: real := 5.0

  datatype HaMode = Away | Home | Night

  /** A Part-Arm slot's label. `For(Away)` is the legacy value that counts as unused. */
  datatype Label = For(mode: HaMode) | Unused

  datatype Settings = Settings(partArm1: Label, partArm2: Label, partArm3: Label)
  {
    function Labels(): seq<Label> { [partArm1, partArm2, partArm3] }

    /** The mode octet of the arm command, if the mode is on offer. */
    function ModeByteForHaMode(mode: HaMode): Option<byte> {
      if mode == Away then Some(FULL_ARM_AWAY_MODE_BYTE)
      else if partArm1 == For(mode) then Some(1)
      else if partArm2 == For(mode) then Some(2)
      else if partArm3 == For(mode) then Some(3)
      else None
    }

    function HaModeForPartArmSlot(slot: int): Option<HaMode> {
      if !(1 <= slot <= 3) then None
      else
        var choice := Labels()[slot - 1];
        if choice == Unused || choice == For(Away) then None else Some(choice.mode)
    }
  }

  /** Away arms with octet 0, any other mode with the number of the first slot labelled with it; and
      only slots 1 to 3 with a label other than the legacy away have a mode. */
  lemma ModeOctets(s: Settings, mode: HaMode)
    ensures s.ModeByteForHaMode(Away) == Some(0)
    ensures mode != Away ==>
              && (s.ModeByteForHaMode(mode) == Some(1) <==> s.partArm1 == For(mode))
              && (s.ModeByteForHaMode(mode) == Some(2) <==> s.partArm2 == For(mode) && s.partArm1 != For(mode))
              && (s.ModeByteForHaMode(mode) == Some(3) <==>
                    s.partArm3 == For(mode) && s.partArm1 != For(mode) && s.partArm2 != For(mode))
              && (s.ModeByteForHaMode(mode) == None <==> For(mode) !in {s.partArm1, s.partArm2, s.partArm3})
    ensures s.HaModeForPartArmSlot(1) == Some(mode) <==> mode != Away && s.partArm1 == For(mode)
    ensures s.HaModeForPartArmSlot(2) == Some(mode) <==> mode != Away && s.partArm2 == For(mode)
    ensures s.HaModeForPartArmSlot(3) == Some(mode) <==> mode != Away && s.partArm3 == For(mode)
    ensures forall slot :: !(1 <= slot <= 3) ==> s.HaModeForPartArmSlot(slot) == None
  {
  }

  /** The check-in timings that the options accept, in seconds. */
  lemma TimingBounds(interval: real, patience: real)
    ensures CheckinTimingAccepted(interval, patience) <==>
            5.0 <= interval <= 30.0 && 5.0 <= patience && interval <= patience
  {
  }

  /** No mode is assigned to two slots. */
  ghost predicate UniqueModes(labels: seq<Label>) {
    UniqueBefore(labels, |labels|)
  }

  ghost predicate UniqueBefore(labels: seq<Label>, n: nat)
    requires n <= |labels|
  {
    forall j, k :: 0 <= k < j < n && labels[j] != Unused ==> labels[k] != labels[j]
  }

  lemma OneMoreUnique(labels: seq<Label>, n: nat)
    requires n < |labels| && UniqueBefore(labels, n)
    ensures (labels[n] == Unused || forall k :: 0 <= k < n ==> labels[k] != labels[n]) ==> UniqueBefore(labels, n + 1)
    ensures forall k :: 0 <= k < n && labels[n] != Unused && labels[k] == labels[n] ==> !UniqueModes(labels)
  {
  }

  lemma NoneUnique(labels: seq<Label>)
    ensures UniqueBefore(labels, 0)
  {
  }

  /** A mode, the slot that has it already, and the slot that asks for it again. */
  datatype Clash = Clash(mode: HaMode, first: nat, second: nat)

  method ValidateUniquePartArmModes(labels: seq<Label>) returns (r: Option<Clash>)
    ensures r.None? <==> UniqueModes(labels)
    ensures r.Some? ==>
              && 1 <= r.value.first < r.value.second <= |labels|
              && labels[r.value.first - 1] == labels[r.value.second - 1] == For(r.value.mode)
              && UniqueBefore(labels, r.value.second - 1)
  {
    hide UniqueBefore;
    NoneUnique(labels);
    var seen: map<HaMode, nat> := map[];
    for i := 0 to |labels|
      invariant UniqueBefore(labels, i)
      invariant forall m :: m in seen ==> 1 <= seen[m] <= i && labels[seen[m] - 1] == For(m)
      invariant forall k :: 0 <= k < i && labels[k].For? ==> labels[k].mode in seen
    {
      var choice := labels[i];
      OneMoreUnique(labels, i);
      if choice.For? {
        if choice.mode in seen {
          return Some(Clash(choice.mode, seen[choice.mode], i + 1));
        }
        assert forall k :: 0 <= k < i ==> labels[k] != choice;
        seen := seen[choice.mode := i + 1];
      }
    }
    return None;
  }

  predicate CheckinTimingAccepted(interval: real, patience: real) {
    && MIN_CHECKIN_INTERVAL <= interval <= MAX_CHECKIN_INTERVAL
    && MIN_CHECKIN_PATIENCE <= patience
    && !(patience < interval)
  }

  /** Arming a mode and reading its slot back agree, for every slot and mode, exactly when no
      Part-Arm mode is assigned twice. */
  lemma ArmModesRoundTripIffUnique(s: Settings)
    ensures (forall slot :: s.HaModeForPartArmSlot(slot).Some? ==>
               s.ModeByteForHaMode(s.HaModeForPartArmSlot(slot).value) == Some(slot as byte))
            <==> UniqueModes(UnlessAway(s.Labels()))
    ensures forall mode :: mode != Away && s.ModeByteForHaMode(mode).Some? ==>
              s.HaModeForPartArmSlot(s.ModeByteForHaMode(mode).value as int) == Some(mode)
  {
    var labels := UnlessAway(s.Labels());
    if UniqueModes(labels) {
      forall slot | s.HaModeForPartArmSlot(slot).Some?
        ensures s.ModeByteForHaMode(s.HaModeForPartArmSlot(slot).value) == Some(slot as byte)
      {
        assert slot == 1 || slot == 2 || slot == 3;
        assert labels[0] == (if s.partArm1 == For(Away) then Unused else s.partArm1);
        assert labels[1] == (if s.partArm2 == For(Away) then Unused else s.partArm2);
        assert labels[2] == (if s.partArm3 == For(Away) then Unused else s.partArm3);
      }
    } else {
      var j, i :| 0 <= i < j < |labels| && labels[j] != Unused && labels[i] == labels[j];
      assert s.HaModeForPartArmSlot(j + 1) == Some(labels[i].mode);
      assert s.ModeByteForHaMode(labels[i].mode) != Some((j + 1) as byte);
    }
  }

  /** Legacy Away labels read as unused. */
  function UnlessAway(labels: seq<Label>): (r: seq<Label>)
    ensures |r| == |labels|
    ensures forall i :: 0 <= i < |labels| ==> r[i] == if labels[i] == For(Away) then Unused else labels[i]
  {
    seq(|labels|, i requires 0 <= i < |labels| => if labels[i] == For(Away) then Unused else labels[i])
  }
}
