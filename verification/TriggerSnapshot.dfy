/** The rolling memory behind the last-trigger attributes (trigger_snapshot.py). Timestamps are
    not modelled. */
module TriggerSnapshot {
  import opened Bytes
  import opened AreaState

  const MAXLEN: nat := 32

  datatype Activity = ZoneActivity(zone: byte, status: byte) | LogActivity(eventType: byte, group: byte)
  {
    /** A zone event whose low two status bits say anything but Secure. */
    predicate Opens() { ZoneActivity? && status as int % 4 != 0 }
  }

  /** That is, one of the two bits is set. */
  lemma OpensByBits(zone: byte, status: byte)
    ensures ZoneActivity(zone, status).Opens() <==> TestBit(status as nat, 0) || TestBit(status as nat, 1)
  {
  }

  /** The end of a history that a bounded deque keeps. */
  function Recent(history: seq<Activity>): seq<Activity> {
    if |history| <= MAXLEN then history else history[|history| - MAXLEN..]
  }

  function InitiatingZone(events: seq<Activity>): Option<byte> {
    if events == [] then None
    else if events[|events| - 1].Opens() then Some(events[|events| - 1].zone)
    else InitiatingZone(events[..|events| - 1])
  }

  /** The zone named is that of the latest opening event in the whole history, provided that
      fewer than 32 events came after it. */
  lemma {:induction false} InitiatingZoneIsLatestRecent(history: seq<Activity>, zone: byte)
    ensures InitiatingZone(Recent(history)) == Some(zone) <==>
            exists i :: 0 <= i < |history| && LatestOpening(history, i) && history[i].zone == zone
                        && |history| - i <= 32
  {
    var recent := Recent(history);
    var skipped := |history| - |recent|;
    LatestOpeningNamed(recent, zone);
    if InitiatingZone(recent) == Some(zone) {
      var k :| 0 <= k < |recent| && LatestOpening(recent, k) && recent[k].zone == zone;
      assert LatestOpening(history, skipped + k) by {
        forall j | skipped + k < j < |history| ensures !history[j].Opens() {
          assert history[j] == recent[j - skipped];
        }
      }
    }
    if i :| 0 <= i < |history| && LatestOpening(history, i) && history[i].zone == zone && |history| - i <= MAXLEN {
      assert recent[i - skipped] == history[i];
      assert LatestOpening(recent, i - skipped) by {
        forall j | i - skipped < j < |recent| ensures !recent[j].Opens() {
          assert recent[j] == history[skipped + j];
        }
      }
    }
  }

  ghost predicate LatestOpening(events: seq<Activity>, i: nat)
    requires i < |events|
  {
    events[i].Opens() && forall j :: i < j < |events| ==> !events[j].Opens()
  }

  lemma {:induction false} LatestOpeningNamed(events: seq<Activity>, zone: byte)
    ensures InitiatingZone(events) == Some(zone) <==>
            exists i :: 0 <= i < |events| && LatestOpening(events, i) && events[i].zone == zone
    decreases |events|
  {
    if events != [] {
      var last := |events| - 1;
      var front := events[..last];
      if events[last].Opens() {
        assert LatestOpening(events, last);
      } else {
        LatestOpeningNamed(front, zone);
        assert forall i :: 0 <= i < last ==> (LatestOpening(front, i) <==> LatestOpening(events, i));
      }
    }
  }

  class TriggerActivityBuffer {
    var events: seq<Activity>

    /** Everything ever recorded, across reconnects. */
    ghost var history: seq<Activity>

    ghost predicate Valid()
      reads this
    {
      events == Recent(history)
    }

    constructor ()
      ensures Valid() && history == []
    {
      events, history := [], [];
    }

    method Record(event: Activity)
      requires Valid()
      modifies this
      ensures Valid() && history == old(history) + [event]
    {
      if |events| == MAXLEN {
        events := events[1..];
      }
      events := events + [event];
      history := history + [event];
    }

    method LatestOpen() returns (zone: Option<byte>)
      requires Valid()
      ensures zone == InitiatingZone(Recent(history))
    {
      var i := |events|;
      assert events[..i] == events;
      while i > 0
        invariant 0 <= i <= |events|
        invariant InitiatingZone(events) == InitiatingZone(events[..i])
      {
        i := i - 1;
        assert events[..i + 1][..i] == events[..i];
        if events[i].Opens() {
          return Some(events[i].zone);
        }
      }
      return None;
    }
  }

  /** What is appended to the attributes topic: one snapshot on the edge into triggered only. */
  function SnapshotOnEdge(previous: Option<Payload>, current: Payload, events: seq<Activity>): seq<Option<byte>> {
    if current != Triggered || previous == Some(Triggered) then [] else [InitiatingZone(events)]
  }
}
