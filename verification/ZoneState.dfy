/** Reading every zone's status in batches (zone_state.py). */
module ZoneState {
  import opened Bytes
  import opened Frames
  import opened Streams
  import opened CommandLog
  import opened Client
  import opened AreaState

  function Statuses(status: int -> byte, start: int, count: nat): seq<byte> {
    seq(count, i requires 0 <= i < count => status(start + i))
  }

  lemma StatusesAppend(status: int -> byte, m: nat, n: nat)
    ensures Statuses(status, 1, m) + Statuses(status, 1 + m, n) == Statuses(status, 1, m + n)
    ensures Statuses(status, 1, 0) == []
  {
  }

  /** A panel that answers a zone request with the statuses of the zones asked for. */
  ghost predicate Honest(sent: seq<Exchange>, status: int -> byte) {
    forall i :: 0 <= i < |sent| ==> HonestReply(sent[i], status)
  }

  ghost predicate HonestReply(e: Exchange, status: int -> byte) {
    forall start, count :: AcceptableZones(start, count) && Asks(e, start, count) && e.ending.Answered? ==>
      e.ending.reply.body == [CMD_GET_ZONE_STATE] + Statuses(status, start, count)
  }

  /** The transmission asks for these zones. */
  predicate Asks(e: Exchange, start: int, count: int)
    requires AcceptableZones(start, count)
  {
    e.octets == CommandOctets(CMD_GET_ZONE_STATE, [start as byte, count as byte], e.Sequence())
  }

  /** An honest reply is the statuses asked for, all of them. */
  lemma AnsweredHonestly(sent: seq<Exchange>, earlier: seq<Exchange>, status: int -> byte, start: int, count: int)
    requires Honest(earlier + sent, status) && LastAnswered(sent) && AcceptableZones(start, count)
    requires Asks(sent[|sent| - 1], start, count)
    ensures |LastReply(sent)| == 1 + count
    ensures LastReply(sent) == [CMD_GET_ZONE_STATE] + Statuses(status, start, count)
  {
    hide Asks;
    var last := sent[|sent| - 1];
    assert (earlier + sent)[|earlier + sent| - 1] == last;
    assert HonestReply(last, status);
  }

  lemma SamePayload(cmd: byte, a: seq<byte>, b: seq<byte>)
    requires [cmd] + a == [cmd] + b
    ensures a == b
  {
    assert ([cmd] + a)[1..] == a && ([cmd] + b)[1..] == b;
  }

  lemma LastAsks(sent: seq<Exchange>, start: int, count: int, session: nat, call: nat, number: nat)
    requires sent != [] && AcceptableZones(start, count)
    requires CallShape(sent, CMD_GET_ZONE_STATE, [start as byte, count as byte], session, call, number, None)
    ensures Asks(sent[|sent| - 1], start, count)
  {
    hide CommandOctets;
  }

  lemma HonestSoFar(earlier: seq<Exchange>, sent: seq<Exchange>, status: int -> byte)
    requires Honest(earlier + sent, status)
    ensures Honest(earlier, status)
  {
    forall i | 0 <= i < |earlier| ensures HonestReply(earlier[i], status) {
      assert (earlier + sent)[i] == earlier[i];
    }
  }

  lemma TilesExtend(requests: seq<(int, int)>, start: int, count: int)
    requires Tiles(requests, start) && 1 <= count <= MAX_ZONES_PER_STATE_REQUEST
    ensures Tiles(requests + [(start, count)], start + count)
  {
    assert (requests + [(start, count)])[..|requests|] == requests;
  }

  lemma NoRequests()
    ensures Tiles([], 1)
  {
  }

  /** The requests made tile 1.. without gap or overlap, none larger than a batch. */
  predicate Tiles(requests: seq<(int, int)>, next: int) {
    if requests == [] then next == 1
    else
      var (start, count) := requests[|requests| - 1];
      1 <= count <= MAX_ZONES_PER_STATE_REQUEST && start + count == next
      && Tiles(requests[..|requests| - 1], start)
  }

  const BYTE_ADDRESSED_ZONES := 2 * MAX_ZONES_PER_STATE_REQUEST

  /** What a batch adds, from any panel that has been honest so far. */
  lemma BatchRead(earlier: seq<Exchange>, asked: seq<Exchange>, out: seq<byte>, payload: seq<byte>,
                  start: int, count: int, session: nat, call: nat, number: nat)
    requires AcceptableZones(start, count) && Returned(Ok(payload), CMD_GET_ZONE_STATE, count, asked)
    requires CallShape(asked, CMD_GET_ZONE_STATE, [start as byte, count as byte], session, call, number, None)
    requires forall status :: Honest(earlier, status) ==> out == Statuses(status, 1, start - 1)
    ensures |payload| == count
    ensures forall status :: Honest(earlier + asked, status) ==> out + payload == Statuses(status, 1, start + count - 1)
  {
    hide Honest, Statuses, CallShape, Asks;
    LastAsks(asked, start, count, session, call, number);
    forall status | Honest(earlier + asked, status) ensures out + payload == Statuses(status, 1, start + count - 1) {
      HonestSoFar(earlier, asked, status);
      AnsweredHonestly(asked, earlier, status, start, count);
      SamePayload(CMD_GET_ZONE_STATE, payload, Statuses(status, start, count));
      StatusesAppend(status, start - 1, count);
    }
  }

  /** Why a batch may fail: it got no honest reply. */
  lemma BatchFailed(earlier: seq<Exchange>, asked: seq<Exchange>, fault: Fault, start: int, count: int,
                    session: nat, call: nat, number: nat)
    requires AcceptableZones(start, count) && Returned(Raised(fault), CMD_GET_ZONE_STATE, count, asked)
    requires CallShape(asked, CMD_GET_ZONE_STATE, [start as byte, count as byte], session, call, number, None)
    ensures forall status :: Honest(earlier + asked, status) && asked != [] ==> !LastAnswered(earlier + asked)
  {
    hide Honest, Statuses, CallShape, Asks;
    forall status | Honest(earlier + asked, status) && asked != [] ensures !LastAnswered(earlier + asked) {
      assert (earlier + asked)[|earlier + asked| - 1] == asked[|asked| - 1];
      if LastAnswered(asked) {
        LastAsks(asked, start, count, session, call, number);
        AnsweredHonestly(asked, earlier, status, start, count);
      }
    }
  }

  lemma NoBadArgument(asked: seq<Exchange>, r: Result<seq<byte>>)
    requires Settles(r, asked, 1) && (asked == [] ==> r.Raised? && NeverSent(r.fault))
    ensures r != Raised(ProtocolError(BadArgument))
  {
  }

  /** `requests` records what was asked. If it succeeds, the requests tile zones 1..zoneCount and, with
      an honest panel, their statuses have come back once each, in order. The client itself refuses a
      request exactly when there are more than 336 zones and the first two were answered: the third
      starts past the one-octet limit. Any other failure with an honest panel is that of a request
      that could not be sent, or whose last transmission got no reply. */
  method FetchZoneStates(panel: PanelClient, zoneCount: int, script: seq<Net>)
    returns (r: Result<seq<byte>>, rest: seq<Net>, ghost sent: seq<Exchange>, ghost requests: seq<(int, int)>)
    requires panel.Valid()
    modifies panel
    ensures panel.Valid() && panel.OnlyTalked(sent) && panel.authenticated == old(panel.authenticated)
    ensures script == MetBy(sent) + rest
    ensures r.Ok? ==> |r.value| == (if zoneCount <= 0 then 0 else zoneCount) && zoneCount <= 336
    ensures r.Ok? ==> Tiles(requests, 1 + |r.value|)
    ensures forall status :: r.Ok? && Honest(sent, status) ==> r.value == Statuses(status, 1, |r.value|)
    ensures r == Raised(ProtocolError(BadArgument)) <==>
              zoneCount > 336 && |requests| == 3
    ensures |requests| == 3 ==> requests[2].0 == 337
    ensures forall status :: Honest(sent, status) && r.Raised? && r.fault != ProtocolError(BadArgument) ==>
              NeverSent(r.fault) || !LastAnswered(sent)
  {
    hide Honest, Statuses, Tiles, PanelClient.Valid, Heard, MetBy, BytesRead, Messages, CallShape, Asks;
    hide Settles, Returned, LastAnswered;
    NoRequests();
    requests, sent, rest := [], [], script;
    panel.NothingAdded(script);
    var out: seq<byte> := [];
    forall status: int -> byte ensures out == Statuses(status, 1, 0) {
      StatusesAppend(status, 0, 0);
    }
    if zoneCount <= 0 {
      return Ok([]), rest, sent, requests;
    }
    var start := 1;
    while start <= zoneCount
      invariant panel.Valid() && panel.OnlyTalked(sent) && panel.authenticated == old(panel.authenticated)
      invariant script == MetBy(sent) + rest
      invariant 1 <= start <= zoneCount + 1 && |out| == start - 1 && |requests| <= 2
      invariant start <= zoneCount ==> start == 1 + |requests| * MAX_ZONES_PER_STATE_REQUEST
      invariant start <= BYTE_ADDRESSED_ZONES + 1
      invariant Tiles(requests, start)
      invariant forall status :: Honest(sent, status) ==> out == Statuses(status, 1, start - 1)
      decreases zoneCount - start
    {
      var batch := if MAX_ZONES_PER_STATE_REQUEST < zoneCount - start + 1
                   then MAX_ZONES_PER_STATE_REQUEST else zoneCount - start + 1;
      TilesExtend(requests, start, batch);
      requests := requests + [(start, batch)];
      var reply;
      ghost var asked;
      ghost var earlier, unread := sent, rest;
      ghost var call, number := panel.calls, panel.numbersTaken;
      reply, rest, asked := panel.GetZoneState(start, batch, rest);
      TalkAppends(old(panel.log), old(panel.items), old(panel.queue), earlier, asked);
      ReadingAppends(script, unread, rest, old(panel.wire), earlier, asked);
      sent := earlier + asked;
      if reply.Raised? {
        if AcceptableZones(start, batch) {
          NoBadArgument(asked, reply);
          BatchFailed(earlier, asked, reply.fault, start, batch, panel.session, call, number);
        }
        return reply, rest, sent, requests;
      }
      BatchRead(earlier, asked, out, reply.value, start, batch, panel.session, call, number);
      out := out + reply.value;
      start := start + batch;
    }
    return Ok(out), rest, sent, requests;
  }

  function PayloadForStatus(status: byte): bool { status as int % 4 != 0 }

  /** One of the two status bits is set. */
  predicate EitherLowBit(status: byte) { TestBit(status as nat, 0) || TestBit(status as nat, 1) }

  lemma PayloadIsEitherLowBit(status: byte)
    ensures PayloadForStatus(status) <==> EitherLowBit(status)
  {
    var value := status as nat;
    assert TestBit(value, 1) == TestBit(value / 2, 0);
  }

  /** The retained zone states a snapshot publishes: every zone in use that the reply covers,
      once, in ascending order, and open exactly when its low two bits say so. */
  method PublishZoneStateSnapshot(statuses: seq<byte>, inUse: set<int>) returns (published: seq<(int, bool)>)
    ensures forall i, j :: 0 <= i < j < |published| ==> published[i].0 < published[j].0
    ensures forall zone, open :: (zone, open) in published <==>
              zone in inUse && 1 <= zone <= |statuses| && open == EitherLowBit(statuses[zone - 1])
  {
    published := [];
    for index := 0 to |statuses|
      invariant forall i :: 0 <= i < |published| ==> published[i].0 <= index
      invariant forall i, j :: 0 <= i < j < |published| ==> published[i].0 < published[j].0
      invariant forall zone, open :: (zone, open) in published <==>
                  zone in inUse && 1 <= zone <= index && open == EitherLowBit(statuses[zone - 1])
    {
      PayloadIsEitherLowBit(statuses[index]);
      if index + 1 in inUse {
        published := published + [(index + 1, PayloadForStatus(statuses[index]))];
      }
    }
  }
}
