/** The Connect-protocol session of client.py.
    The network is a script of what each wait meets; a run that uses up its script is a prefix of
    a longer one. Every method below that the source runs under the I/O lock is one atomic step. */
module Client {
  import opened Bytes
  import opened Frames
  import opened Streams
  import opened CommandLog

  datatype Refusal = NeverConnected | NotLoggedIn | WrongCommand | Rejected | WrongShape | BadArgument

  /** The exceptions that end a call. `OutOfScript` is not one: the call is still waiting. */
  datatype Fault =
    | Timeout(busy: bool)
    | ForcedDisconnect(why: Loss)
    | ProtocolError(what: Refusal)
    | ValueError
    | OutOfScript

  datatype Result<+T> = Ok(value: T) | Raised(fault: Fault)

  type ReplyTest = seq<byte> -> bool

  function Heard(es: seq<Exchange>): seq<Item> {
    if es == [] then [] else Heard(es[..|es| - 1]) + es[|es| - 1].heard
  }

  /** What the network did during these exchanges. */
  function MetBy(es: seq<Exchange>): seq<Net> {
    if es == [] then [] else MetBy(es[..|es| - 1]) + es[|es| - 1].met
  }

  function EndingOf(r: Result<Frame>, cmd: byte): Ending {
    match r
    case Ok(reply) => if RightCommand(reply, cmd) then Answered(reply) else Mismatched(reply)
    case Raised(Timeout(busy)) => TimedOut(busy)
    case Raised(ForcedDisconnect(why)) => Broken(why)
    case Raised(_) => Unfinished
  }

  /** The stream `wire` cuts into `items`, then whatever the unread `buf` cuts into. */
  ghost predicate CutsInto(wire: seq<byte>, items: seq<Item>, buf: seq<byte>) {
    Cut(wire) == (items + Cut(buf).0, Cut(buf).1)
  }

  lemma ConsumingKeepsCut(wire: seq<byte>, items: seq<Item>, buf: seq<byte>)
    requires CutsInto(wire, items, buf) && !InspectLeading(buf).NeedMore?
    ensures CutsInto(wire, items + [ItemOf(buf)], buf[InspectLeading(buf).Consumed()..])
  {
    hide InspectLeading, ItemOf;
    var tail := buf[InspectLeading(buf).Consumed()..];
    assert items + Cut(buf).0 == (items + [ItemOf(buf)]) + Cut(tail).0;
  }

  lemma ReadingKeepsCut(wire: seq<byte>, items: seq<Item>, buf: seq<byte>, data: seq<byte>)
    requires CutsInto(wire, items, buf)
    ensures CutsInto(wire + data, items, buf + data)
  {
    hide Cut;
    CutAppend(wire, data);
    CutAppend(buf, data);
    var unread := Cut(buf).1;
    assert (items + Cut(buf).0) + Cut(unread + data).0 == items + (Cut(buf).0 + Cut(unread + data).0);
  }

  /** The item consumed tells a frame, a hang-up and noise apart the way the client does. */
  lemma ItemNamesOutcome(buf: seq<byte>)
    requires !InspectLeading(buf).NeedMore?
    ensures var (frame, consumed) := TryDecodeFrame(buf);
            && consumed == InspectLeading(buf).Consumed()
            && (frame.Some? ==> ItemOf(buf) == Received(frame.value))
            && (frame.None? && consumed == 3 && buf[..3] == MARKER ==> ItemOf(buf) == HangUp)
            && (frame.None? && !(consumed == 3 && buf[..3] == MARKER) ==> ItemOf(buf).Noise?)
  {
  }

  lemma MessagesOfOne(item: Item)
    ensures Messages([item]) ==
            (if item.Received? && item.frame.msgType == TYPE_MESSAGE then [item.frame] else [])
  {
    assert [item][1..] == [];
  }

  lemma HeardOneMore(es: seq<Exchange>, e: Exchange)
    ensures Heard(es + [e]) == Heard(es) + e.heard
  {
    assert (es + [e])[..|es|] == es;
  }

  lemma NobodyTalks()
    ensures Heard([]) == [] && MetBy([]) == []
  {
  }

  lemma {:induction false} HeardAppend(a: seq<Exchange>, b: seq<Exchange>)
    ensures Heard(a + b) == Heard(a) + Heard(b)
    decreases |b|
  {
    hide Heard;
    if b == [] {
      NobodyTalks();
      assert a + b == a && Heard(a) + [] == Heard(a);
    } else {
      var front, last := b[..|b| - 1], b[|b| - 1];
      HeardAppend(a, front);
      HeardOneMore(a + front, last);
      HeardOneMore(front, last);
      assert (a + front) + [last] == a + b && front + [last] == b;
      assert (Heard(a) + Heard(front)) + last.heard == Heard(a) + (Heard(front) + last.heard);
    }
  }

  /** Two stretches of talk are one. */
  lemma TalkAppends(log: seq<Exchange>, items: seq<Item>, queue: seq<Frame>, a: seq<Exchange>, b: seq<Exchange>)
    ensures (log + a) + b == log + (a + b)
    ensures (items + Heard(a)) + Heard(b) == items + Heard(a + b)
    ensures (queue + Messages(Heard(a))) + Messages(Heard(b)) == queue + Messages(Heard(a + b))
  {
    hide Heard, Messages;
    HeardAppend(a, b);
    MessagesAppend(Heard(a), Heard(b));
    assert (items + Heard(a)) + Heard(b) == items + (Heard(a) + Heard(b));
    assert (queue + Messages(Heard(a))) + Messages(Heard(b)) == queue + (Messages(Heard(a)) + Messages(Heard(b)));
  }

  lemma {:induction false} MetAppend(a: seq<Exchange>, b: seq<Exchange>)
    ensures MetBy(a + b) == MetBy(a) + MetBy(b)
    decreases |b|
  {
    hide MetBy;
    if b == [] {
      NobodyTalks();
      assert a + b == a && MetBy(a) + [] == MetBy(a);
    } else {
      var front, last := b[..|b| - 1], b[|b| - 1];
      MetAppend(a, front);
      MetOneMore(a + front, last);
      MetOneMore(front, last);
      assert (a + front) + [last] == a + b && front + [last] == b;
      assert (MetBy(a) + MetBy(front)) + last.met == MetBy(a) + (MetBy(front) + last.met);
    }
  }

  lemma MetOneMore(es: seq<Exchange>, e: Exchange)
    ensures MetBy(es + [e]) == MetBy(es) + e.met
  {
    assert (es + [e])[..|es|] == es;
  }

  lemma ReadingAppends(script: seq<Net>, middle: seq<Net>, rest: seq<Net>, wire: seq<byte>,
                       a: seq<Exchange>, b: seq<Exchange>)
    requires script == MetBy(a) + middle && middle == MetBy(b) + rest
    ensures script == MetBy(a + b) + rest
    ensures (wire + BytesRead(MetBy(a))) + BytesRead(MetBy(b)) == wire + BytesRead(MetBy(a + b))
  {
    hide MetBy, BytesRead;
    MetAppend(a, b);
    BytesReadAppend(MetBy(a), MetBy(b));
    assert (wire + BytesRead(MetBy(a))) + BytesRead(MetBy(b)) == wire + (BytesRead(MetBy(a)) + BytesRead(MetBy(b)));
  }

  lemma NothingSent(cmd: byte, body: seq<byte>, session: nat, call: nat, firstNumber: nat, retryIf: Option<ReplyTest>)
    ensures Heard([]) == [] && CallShape([], cmd, body, session, call, firstNumber, retryIf)
  {
  }

  lemma NothingTalked(items: seq<Item>, queue: seq<Frame>, log: seq<Exchange>, wire: seq<byte>, script: seq<Net>)
    ensures items + Heard([]) == items && queue + Messages(Heard([])) == queue && log + [] == log
    ensures wire + BytesRead(MetBy([])) == wire && MetBy([]) + script == script
  {
  }

  lemma NothingCuts()
    ensures CutsInto([], [], []) && Messages([]) == []
  {
    assert [] + Cut([]).0 == Cut([]).0;
  }

  lemma {:induction false} OnlyMessages(items: seq<Item>, i: nat)
    requires i < |Messages(items)|
    ensures Messages(items)[i].msgType == TYPE_MESSAGE
    decreases |items|
  {
    var first := items[0];
    if first.Received? && first.frame.msgType == TYPE_MESSAGE {
      if i > 0 {
        OnlyMessages(items[1..], i - 1);
      }
    } else {
      OnlyMessages(items[1..], i);
    }
  }

  lemma QueuedAreMessages(items: seq<Item>, delivered: seq<Frame>, queue: seq<Frame>)
    requires delivered + queue == Messages(items) && queue != []
    ensures queue[0].msgType == TYPE_MESSAGE
  {
    OnlyMessages(items, |delivered|);
    assert (delivered + queue)[|delivered|] == queue[0];
  }

  /** The bytes that a stretch of the script delivers. */
  function BytesRead(used: seq<Net>): seq<byte> {
    if used == [] then []
    else BytesRead(used[..|used| - 1]) +
         (if used[|used| - 1].Chunk? then used[|used| - 1].data else [])
  }

  lemma {:induction false} BytesReadAppend(a: seq<Net>, b: seq<Net>)
    ensures BytesRead(a + b) == BytesRead(a) + BytesRead(b)
    decreases |b|
  {
    if b == [] {
      assert a + b == a;
    } else {
      assert (a + b)[..|a + b| - 1] == a + b[..|b| - 1];
      BytesReadAppend(a, b[..|b| - 1]);
    }
  }

  /** Why a read stopped. A session that is not there stops it before it starts. */
  function StopOfRead(r: Result<Frame>): Stop {
    match r
    case Ok(_) => Whole
    case Raised(Timeout(_)) => Deadline
    case Raised(ForcedDisconnect(why)) => Lost(why)
    case Raised(OutOfScript) => Waiting
    case Raised(_) => Lost(SessionGone)
  }

  /** A read is out of script only where the script ends or turns to a write. */
  predicate StarvedBy(r: Result<Frame>, rest: seq<Net>) {
    r == Raised(OutOfScript) ==> rest == [] || rest[0] == WriteError
  }

  /** `rest` is what is left of `script` after `used`, which added its bytes to the stream. */
  predicate Read(script: seq<Net>, used: seq<Net>, rest: seq<Net>, before: seq<byte>, after: seq<byte>) {
    script == used + rest && after == before + BytesRead(used)
  }

  lemma OneMoreMet(used: seq<Net>, event: Net)
    requires AllChunks(used)
    ensures EndsWith(used + [event], event)
    ensures match event
            case Chunk(data) =>
              if data == [] then Stops([], used + [event], Lost(PeerClosed)) else AllChunks(used + [event])
            case ReadError => Stops([], used + [event], Lost(TransportFailed))
            case WriteError => true
            case _ => Stops([], used + [event], Deadline)
  {
    assert (used + [event])[..|used|] == used;
  }

  lemma NoChunks()
    ensures AllChunks([]) && AllReceived([])
  {
  }

  lemma ReadStops(used: seq<Net>)
    requires AllChunks(used)
    ensures Stops([], used, Waiting) && Stops([HangUp], used, Lost(SentMarker))
    ensures forall item: Item :: item.Received? ==> Stops([item], used, Whole)
    ensures forall item: Item :: item.Noise? ==> Stops([item], used, Lost(OutsideProtocol))
    ensures used == [] ==> Stops([], used, Lost(SessionGone))
  {
  }

  lemma DeadlineStops(items: seq<Item>, met: seq<Net>)
    requires EndsWith(met, DeadlinePassed) && AllReceived(items)
    ensures Stops(items, met, Deadline)
  {
  }

  lemma WriteFails(script: seq<Net>, wire: seq<byte>)
    requires script != [] && script[0] == WriteError
    ensures Read(script, [WriteError], script[1..], wire, wire)
  {
    assert [WriteError][..0] == [] && wire + [] == wire;
  }

  lemma ReadNothing(script: seq<Net>, wire: seq<byte>)
    ensures Read(script, [], script, wire, wire)
  {
    assert [] + script == script && wire + [] == wire;
  }

  /** How a turn of `recv_message` on an empty queue reports what it met: each outcome has just the
      causes that the source gives it. */
  ghost predicate TurnEnds(r: Result<Option<Frame>>, entering: bool, connected: bool, gone: Fault,
                           script: seq<Net>, took: seq<Item>, used: seq<Net>, rest: seq<Net>)
  {
    if !connected && (entering || !(script != [] && script[0] == DeadlinePassed)) then
      r == Raised(gone) && took == [] && used == []
    else if script != [] && script[0] == DeadlinePassed then
      r == Raised(Timeout(false)) && took == [] && used == [DeadlinePassed]
    else
      match r
      case Ok(Some(frame)) => took == [Received(frame)] && frame.msgType == TYPE_MESSAGE && AllChunks(used)
      case Ok(None) =>
        || (|took| == 1 && took[0].Received? && took[0].frame.msgType != TYPE_MESSAGE && AllChunks(used))
        || (took == [] && (EndsWith(used, Silence) || EndsWith(used, DeadlinePassed)))
      case Raised(ForcedDisconnect(SentMarker)) => took == [HangUp] && AllChunks(used)
      case Raised(ForcedDisconnect(OutsideProtocol)) => |took| == 1 && took[0].Noise? && AllChunks(used)
      case Raised(ForcedDisconnect(TransportFailed)) => took == [] && EndsWith(used, ReadError)
      case Raised(ForcedDisconnect(PeerClosed)) => took == [] && EndsWith(used, Chunk([]))
      case Raised(OutOfScript) => took == [] && AllChunks(used) && (rest == [] || rest[0] == WriteError)
      case Raised(_) => false
  }

  lemma TurnOfRead(read: Result<Frame>, r: Result<Option<Frame>>, connected: bool, gone: Fault,
                   script: seq<Net>, took: seq<Item>, used: seq<Net>, rest: seq<Net>)
    requires Took(read, took) && Stops(took, used, StopOfRead(read)) && StarvedBy(read, rest)
    requires !(script != [] && script[0] == DeadlinePassed)
    requires if connected then read != Raised(ForcedDisconnect(SessionGone)) else read == Raised(gone)
    requires gone == ForcedDisconnect(SessionGone) || gone == ProtocolError(NeverConnected)
    requires read.Raised? ==> read.fault == Timeout(false) || read.fault.ForcedDisconnect? || read.fault == OutOfScript
                              || read.fault == ProtocolError(NeverConnected)
    requires connected && read.Raised? ==> !read.fault.ProtocolError?
    requires r == if read.Raised? then if read.fault == Timeout(false) then Ok(None) else Raised(read.fault)
                  else if read.value.msgType == TYPE_MESSAGE then Ok(Some(read.value)) else Ok(None)
    ensures TurnEnds(r, false, connected, gone, script, took, used, rest)
    ensures connected ==> TurnEnds(r, true, connected, gone, script, took, used, rest)
  {
  }

  lemma ReadOne(script: seq<Net>, used: seq<Net>, rest: seq<Net>, before: seq<byte>, after: seq<byte>)
    requires Read(script, used, rest, before, after) && rest != []
    ensures Read(script, used + [rest[0]], rest[1..], before, if rest[0].Chunk? then after + rest[0].data else after)
  {
    var longer := used + [rest[0]];
    assert longer[..|used|] == used;
    assert longer + rest[1..] == used + rest;
    assert BytesRead(used) + [] == BytesRead(used);
  }

  lemma ReadMore(script: seq<Net>, used: seq<Net>, rest: seq<Net>, before: seq<byte>, middle: seq<byte>,
                 more: seq<Net>, last: seq<Net>, after: seq<byte>)
    requires Read(script, used, rest, before, middle) && Read(rest, more, last, middle, after)
    ensures Read(script, used + more, last, before, after)
  {
    BytesReadAppend(used, more);
  }

  lemma ReadShortens(script: seq<Net>, used: seq<Net>, rest: seq<Net>, before: seq<byte>, after: seq<byte>)
    requires Read(script, used, rest, before, after)
    ensures |rest| <= |script| && (|rest| == |script| <==> used == [])
  {
  }

  /** What the end of one read consumed. */
  predicate Took(r: Result<Frame>, took: seq<Item>) {
    match r
    case Ok(frame) => took == [Received(frame)]
    case Raised(ForcedDisconnect(SentMarker)) => took == [HangUp]
    case Raised(ForcedDisconnect(OutsideProtocol)) => |took| == 1 && took[0].Noise?
    case Raised(_) => took == []
  }

  predicate NoResponse(items: seq<Item>, sequence: byte) {
    forall i :: 0 <= i < |items| ==> !ResponseTo(items[i], sequence)
  }

  /** A read hears a response only by returning it. */
  lemma ResponseOfRead(heard: seq<Item>, r: Result<Frame>, took: seq<Item>, sequence: byte)
    requires Took(r, took) && NoResponse(heard, sequence)
    ensures var all := heard + took;
            && (r.Raised? || !ResponseTo(Received(r.value), sequence) ==> NoResponse(all, sequence))
            && (r.Ok? ==> all != [] && all[|all| - 1] == Received(r.value) && all[..|all| - 1] == heard)
  {
  }

  function Earlier(heard: seq<Item>): seq<Item> {
    if heard == [] then [] else heard[..|heard| - 1]
  }

  lemma NotAResponse(frame: Frame, sequence: byte)
    ensures ResponseTo(Received(frame), sequence) <==> frame.msgType == TYPE_RESPONSE && frame.sequence == sequence
  {
  }

  /** One more read, seen from the histories at the start of the wait. */
  lemma HeardMore(items: seq<Item>, queue: seq<Frame>, heard: seq<Item>, r: Result<Frame>, took: seq<Item>,
                  sequence: byte)
    requires Took(r, took) && NoResponse(heard, sequence)
    ensures (items + heard) + took == items + (heard + took)
    ensures (queue + Messages(heard)) + Messages(took) == queue + Messages(heard + took)
    ensures Messages(heard + took) != [] <==>
            Messages(heard) != [] || (r.Ok? && r.value.msgType == TYPE_MESSAGE)
    ensures r.Raised? || !ResponseTo(Received(r.value), sequence) ==> NoResponse(heard + took, sequence)
    ensures NoResponse(Earlier(heard + took), sequence)
    ensures r.Ok? ==> heard + took != [] && (heard + took)[|heard + took| - 1] == Received(r.value)
  {
    hide Messages, NoResponse, ResponseTo, Took;
    MessagesOfRead(heard, r, took);
    ResponseOfRead(heard, r, took, sequence);
    var all := heard + took;
    if NoResponse(all, sequence) {
      NoResponseEarlier(all, sequence);
    }
    assert (queue + Messages(heard)) + Messages(took) == queue + (Messages(heard) + Messages(took));
  }

  lemma NoResponseEarlier(heard: seq<Item>, sequence: byte)
    requires NoResponse(heard, sequence)
    ensures NoResponse(Earlier(heard), sequence)
  {
  }

  lemma NothingYet(items: seq<Item>, queue: seq<Frame>, sequence: byte)
    ensures NoResponse([], sequence) && Earlier([]) == [] && Messages([]) == []
    ensures items + [] == items && queue + Messages([]) == queue
  {
  }

  /** A read adds the frame it returns to the unsolicited ones, if that is what it is. */
  lemma MessagesOfRead(items: seq<Item>, r: Result<Frame>, took: seq<Item>)
    requires Took(r, took)
    ensures Messages(took) == if r.Ok? && r.value.msgType == TYPE_MESSAGE then [r.value] else []
    ensures Messages(items + took) == Messages(items) + Messages(took)
  {
    MessagesAppend(items, took);
    if took != [] {
      assert took == [took[0]];
      MessagesOfOne(took[0]);
    }
  }

  predicate WorthRetrying(ending: Ending, retryIf: Option<ReplyTest>) {
    || ending.TimedOut?
    || (ending.Answered? && ending.reply.body != []
        && retryIf.Some? && retryIf.value(ending.reply.body[1..]))
  }

  /** The reply carries `payload` after the echoed command octet. */
  predicate Delivers(ending: Ending, cmd: byte, payload: seq<byte>) {
    ending.Answered? && ending.reply.body == [cmd] + payload
  }

  lemma BodyFitsIff(cmd: byte, body: seq<byte>, sequence: byte)
    ensures EncodeCommand(cmd, body, sequence as int).Wire? <==> BodyFits(body)
  {
  }

  /** The transmissions of one call: the first takes the number that was due, and each but the
      last ended in a way that asks for another. */
  predicate CallShape(
    sent: seq<Exchange>, cmd: byte, body: seq<byte>, session: nat, call: nat, firstNumber: nat,
    retryIf: Option<ReplyTest>)
  {
    && (forall i :: 0 <= i < |sent| ==>
          sent[i].cmd == cmd && sent[i].session == session && sent[i].call == call
          && BodyFits(body) && sent[i].octets == CommandOctets(cmd, body, sent[i].Sequence()))
    && (sent != [] ==> sent[0].alloc == firstNumber)
    && (forall i :: 0 <= i < |sent| - 1 ==> WorthRetrying(sent[i].ending, retryIf))
  }

  /** The area-flags requests that have an encoding. */
  predicate AcceptableAreas(start: int, count: int, areaSize: int) {
    1 <= count <= AREA_FLAGS_COUNT && 0 <= start <= 255 && areaSize >= 1
  }

  /** The zone requests that have an encoding. */
  predicate AcceptableZones(start: int, count: int) {
    1 <= count <= MAX_ZONES_PER_STATE_REQUEST && 1 <= start <= 255
  }

  /** The ways a call fails before it writes anything. */
  predicate NeverSent(fault: Fault) {
    || fault == ForcedDisconnect(SessionGone)
    || fault == ProtocolError(NeverConnected)
    || fault == ProtocolError(NotLoggedIn)
    || fault == ValueError
  }

  /** How a call without a test of its own reports what became of its last transmission: it failed
      for that very reason, timeouts only once the budget was used up, or it was answered. */
  ghost predicate Settles<T>(r: Result<T>, sent: seq<Exchange>, retries: nat) {
    sent != [] ==>
      && |sent| <= retries + 1
      && match sent[|sent| - 1].ending
         case TimedOut(_) => r.Raised? && r.fault == Timeout(false) && |sent| == retries + 1
         case Broken(why) => r.Raised? && r.fault == ForcedDisconnect(why)
         case Unfinished => r.Raised? && r.fault == OutOfScript
         case Mismatched(_) => r.Raised? && r.fault == ProtocolError(WrongCommand)
         case Answered(_) => r.Raised? ==> r.fault == ProtocolError(Rejected) || r.fault == ProtocolError(WrongShape)
  }

  predicate LastAnswered(sent: seq<Exchange>) { sent != [] && sent[|sent| - 1].ending.Answered? }

  /** The body of the reply that settled the call, command octet included. */
  function LastReply(sent: seq<Exchange>): seq<byte>
    requires LastAnswered(sent)
  {
    sent[|sent| - 1].ending.reply.body
  }

  /** An order succeeds exactly when it was answered by a reply that does not start with NAK, 0x15. */
  predicate Obeyed(r: Result<()>, cmd: byte, sent: seq<Exchange>) {
    && (r.Ok? <==> LastAnswered(sent) && !([cmd, 0x15] <= LastReply(sent)))
    && (r == Raised(ProtocolError(Rejected)) <==> LastAnswered(sent) && [cmd, 0x15] <= LastReply(sent))
    && r != Raised(ProtocolError(WrongShape))
  }

  /** A query returns the payload of its reply exactly when that has the length asked for. */
  predicate Returned(r: Result<seq<byte>>, cmd: byte, length: nat, sent: seq<Exchange>) {
    && (r.Ok? <==> LastAnswered(sent) && |LastReply(sent)| == 1 + length)
    && (r.Ok? ==> LastReply(sent) == [cmd] + r.value)
    && (r == Raised(ProtocolError(Rejected)) <==> LastAnswered(sent) && length != 1 && LastReply(sent) == [cmd, 0x15])
    && (r == Raised(ProtocolError(WrongShape)) <==>
          LastAnswered(sent) && |LastReply(sent)| != 1 + length && LastReply(sent) != [cmd, 0x15])
  }

  lemma ConcludedSettles(r: Result<seq<byte>>, sent: seq<Exchange>, cmd: byte, retries: nat)
    requires sent != [] && |sent| <= retries + 1
    requires Concludes(r, sent[|sent| - 1].ending, cmd, None, |sent| == retries + 1)
    ensures Settles(r, sent, retries)
    ensures r.Ok? <==> LastAnswered(sent)
    ensures r.Ok? ==> LastReply(sent) == [cmd] + r.value
  {
  }

  lemma QueryReturns(reply: seq<byte>, cmd: byte, length: nat)
    ensures |[cmd] + reply| == 1 + |reply|
    ensures [cmd] + reply == [cmd, NAK] <==> reply == [NAK]
  {
    assert ([cmd] + reply)[1..] == reply;
  }

  lemma AckedReply(payload: seq<byte>)
    ensures [CMD_LOGIN] + payload == [CMD_LOGIN, ACK] <==> payload == [ACK]
  {
    assert ([CMD_LOGIN] + payload)[1..] == payload;
  }

  lemma RefusedReply(cmd: byte, payload: seq<byte>)
    ensures [cmd, NAK] <= [cmd] + payload <==> payload != [] && payload[0] == NAK
  {
    if payload != [] {
      assert ([cmd] + payload)[1] == payload[0];
    }
  }

  lemma LastOfCall(sent: seq<Exchange>, cmd: byte, body: seq<byte>, session: nat, call: nat, firstNumber: nat,
                   retryIf: Option<ReplyTest>)
    requires CallShape(sent, cmd, body, session, call, firstNumber, retryIf) && sent != []
    ensures var last := sent[|sent| - 1]; last.cmd == cmd && last.session == session && last.call == call
  {
  }

  lemma CallShapeExtends(sent: seq<Exchange>, e: Exchange, body: seq<byte>, firstNumber: nat,
                         retryIf: Option<ReplyTest>)
    requires CallShape(sent, e.cmd, body, e.session, e.call, firstNumber, retryIf)
    requires BodyFits(body) && e.octets == CommandOctets(e.cmd, body, e.Sequence())
    requires if sent == [] then e.alloc == firstNumber else WorthRetrying(sent[|sent| - 1].ending, retryIf)
    ensures CallShape(sent + [e], e.cmd, body, e.session, e.call, firstNumber, retryIf)
  {
  }

  lemma WaitIsWellHeard(r: Result<Frame>, e: Exchange)
    requires e.ending == EndingOf(r, e.cmd)
    requires NoResponse(Earlier(e.heard), e.Sequence())
    requires r.Ok? ==> EndsOn(e, r.value)
    requires r.Raised? && r.fault.Timeout? ==> r.fault.busy == (Messages(e.heard) != [])
    ensures WellHeard(e)
  {
  }

  lemma WaitIsWellEnded(r: Result<Frame>, e: Exchange)
    requires e.ending == EndingOf(r, e.cmd)
    requires r.Raised? ==> r.fault.Timeout? || r.fault.ForcedDisconnect? || r.fault == OutOfScript
    requires Stops(e.heard, e.met, StopOfRead(r))
             || (r == Raised(ForcedDisconnect(TransportFailed)) && e.met == [WriteError] && e.heard == [])
    ensures WellEnded(e)
  {
  }

  /** Whether a wait settles the call, or its result stands only once the budget is used up. */
  datatype Verdict = Done(result: Result<seq<byte>>) | Again(result: Result<seq<byte>>)

  function Judge(reply: Result<Frame>, cmd: byte, retryIf: Option<ReplyTest>): Verdict {
    match reply
    case Raised(Timeout(_)) => Again(Raised(Timeout(false)))
    case Raised(fault) => Done(Raised(fault))
    case Ok(frame) =>
      if !RightCommand(frame, cmd) then Done(Raised(ProtocolError(WrongCommand)))
      else
        var payload := frame.body[1..];
        if retryIf.Some? && retryIf.value(payload) then Again(Ok(payload)) else Done(Ok(payload))
  }

  /** How a call can end, given how its last wait ended and whether that used up the budget. */
  predicate Concludes(r: Result<seq<byte>>, ending: Ending, cmd: byte, retryIf: Option<ReplyTest>, spent: bool) {
    && (WorthRetrying(ending, retryIf) ==> spent)
    && (match r
        case Ok(payload) => Delivers(ending, cmd, payload)
        case Raised(Timeout(busy)) => ending.TimedOut? && !busy
        case Raised(ProtocolError(what)) => ending.Mismatched? && what == WrongCommand
        case Raised(ForcedDisconnect(why)) => ending == Broken(why)
        case Raised(OutOfScript) => ending.Unfinished?
        case Raised(ValueError) => false)
  }

  lemma JudgementMeans(reply: Result<Frame>, cmd: byte, retryIf: Option<ReplyTest>)
    requires reply.Raised? ==> reply.fault.Timeout? || reply.fault.ForcedDisconnect? || reply.fault == OutOfScript
    ensures var ending, verdict := EndingOf(reply, cmd), Judge(reply, cmd, retryIf);
            && (verdict.Again? <==> WorthRetrying(ending, retryIf))
            && (verdict.Again? && reply.Ok? ==> ending.Answered?)
            && (verdict.Again? && reply.Raised? ==> reply.fault.Timeout? && ending == TimedOut(reply.fault.busy))
            && Concludes(verdict.result, ending, cmd, retryIf, true)
            && (verdict.Done? ==> Concludes(verdict.result, ending, cmd, retryIf, false))
  {
  }

  lemma ConcludedByTheWire(r: Result<seq<byte>>, ending: Ending, cmd: byte, retryIf: Option<ReplyTest>, spent: bool)
    requires Concludes(r, ending, cmd, retryIf, spent)
    ensures r != Raised(ValueError) && r != Raised(ProtocolError(BadArgument))
  {
  }

  ghost predicate MayFollow(log: seq<Exchange>, session: nat, call: nat, alloc: nat, cmd: byte) {
    log != [] ==> Follows(log[|log| - 1], Exchange(session, call, alloc, cmd, [], [], [], Unfinished))
  }

  /** A retry keeps its number, or takes a fresh one after a busy arm or disarm. */
  lemma RetryMayFollow(log: seq<Exchange>, e: Exchange)
    requires log != [] && log[|log| - 1] == e && e.Retries()
    ensures MayFollow(log, e.session, e.call, e.alloc + FreshNumbers(e), e.cmd)
  {
  }

  lemma NumberOfRetry(e: Exchange, reply: Result<Frame>)
    requires e.ending == EndingOf(reply, e.cmd) && (reply.Raised? ==> reply.fault.Timeout?)
    ensures FreshNumbers(e) == if reply.Raised? && reply.fault.busy && IsArmOrDisarm(e.cmd) then 1 else 0
  {
  }

  lemma NewCallMayFollow(log: seq<Exchange>, session: nat, call: nat, alloc: nat, cmd: byte)
    requires log != [] ==>
               var last := log[|log| - 1]; last.alloc < alloc && last.call < call && last.session <= session
    ensures MayFollow(log, session, call, alloc, cmd)
  {
  }

  /** One more exchange, seen from the histories at the start of the call. */
  lemma HistoriesExtend(log: seq<Exchange>, items: seq<Item>, queue: seq<Frame>, sent: seq<Exchange>, e: Exchange)
    ensures (log + sent) + [e] == log + (sent + [e])
    ensures (items + Heard(sent)) + e.heard == items + Heard(sent + [e])
    ensures (queue + Messages(Heard(sent))) + Messages(e.heard) == queue + Messages(Heard(sent + [e]))
  {
    assert (sent + [e])[..|sent|] == sent;
    MessagesAppend(Heard(sent), e.heard);
  }

  lemma ReadingExtends(script: seq<Net>, rest: seq<Net>, last: seq<Net>, wire: seq<byte>, sent: seq<Exchange>,
                       e: Exchange, before: seq<byte>, after: seq<byte>)
    requires script == MetBy(sent) + rest && before == wire + BytesRead(MetBy(sent))
    requires Read(rest, e.met, last, before, after)
    ensures script == MetBy(sent + [e]) + last && after == wire + BytesRead(MetBy(sent + [e]))
  {
    assert (sent + [e])[..|sent|] == sent;
    BytesReadAppend(MetBy(sent), e.met);
  }

  /** Every transmission carries this command, octet for octet. */
  predicate Carry(sent: seq<Exchange>, command: seq<byte>) {
    forall i :: 0 <= i < |sent| ==> CarriesCommand(sent[i].octets, sent[i].Sequence(), command)
  }

  lemma CallCarries(sent: seq<Exchange>, cmd: byte, body: seq<byte>, session: nat, call: nat, firstNumber: nat)
    requires CallShape(sent, cmd, body, session, call, firstNumber, None)
    ensures Carry(sent, [cmd] + body)
  {
    hide EncodeCommand, CarriesCommand;
    forall i | 0 <= i < |sent| ensures CarriesCommand(sent[i].octets, sent[i].Sequence(), [cmd] + body) {
      CommandsAreCarried(cmd, body, sent[i].Sequence());
    }
  }

  /** The panel was asked this, unless `refusal` says why not, and the outcome is what became of that. */
  ghost predicate Asked<T>(refusal: Option<Fault>, r: Result<T>, sent: seq<Exchange>, command: seq<byte>,
                           retries: nat)
  {
    && Carry(sent, command) && Settles(r, sent, retries)
    && (sent == [] <==> refusal.Some?) && (sent == [] ==> r == Raised(refusal.value))
  }

  /** A number of the counter, as the octet that goes on the wire. */
  predicate OnWire(number: nat, octet: byte) { octet as nat == number % 256 }

  class PanelClient {
    var connected: bool
    var hadTransport: bool
    var authenticated: bool
    var buf: seq<byte>
    var nextSeq: byte
    var queue: seq<Frame>

    /** Since the last `connect`: bytes read, what they were consumed as, and frames handed out. */
    ghost var wire: seq<byte>
    ghost var items: seq<Item>
    ghost var delivered: seq<Frame>

    /** Since construction: transmissions, sequence numbers taken, calls made, sessions opened. */
    ghost var log: seq<Exchange>
    ghost var numbersTaken: nat
    ghost var calls: nat
    ghost var session: nat

    /** What has been consumed, and what the buffer still holds, is what the stream read so far
        cuts into, wherever the reads fell. */
    ghost predicate FollowsWire()
      reads `connected, `wire, `items, `buf
    {
      connected ==> CutsInto(wire, items, buf)
    }

    /** Every unsolicited frame read is either handed out or queued, once, in wire order. */
    ghost predicate Conserved()
      reads `delivered, `queue, `items
    {
      delivered + queue == Messages(items)
    }

    ghost predicate Numbered()
      reads this
    {
      && OnWire(numbersTaken, nextSeq)
      && Lawful(log)
      && (log != [] ==>
            var last := log[|log| - 1];
            last.alloc < numbersTaken && last.call < calls && last.session <= session)
      && (connected ==> hadTransport)
      && (authenticated ==> connected && LoggedIn(log, session))
    }

    ghost predicate Valid()
      reads this
    {
      FollowsWire() && Conserved() && Numbered()
    }

    constructor ()
      ensures Valid()
      ensures !connected && !hadTransport && !authenticated && queue == [] && log == []
    {
      connected, hadTransport, authenticated := false, false, false;
      buf, nextSeq, queue := [], 0, [];
      wire, items, delivered := [], [], [];
      log, numbersTaken, calls, session := [], 0, 0, 0;
    }

    method Connect(reachable: bool) returns (ok: bool)
      requires Valid()
      modifies this
      ensures Valid() && ok == reachable
      ensures log == old(log) && numbersTaken == old(numbersTaken)
      ensures ok ==> connected && !authenticated && buf == [] && queue == [] && session == old(session) + 1
      ensures !ok ==> unchanged(this)
    {
      hide Lawful, LoggedIn, CutsInto, Messages;
      NothingCuts();
      if !reachable {
        return false;
      }
      connected, hadTransport, authenticated := true, true, false;
      buf, queue := [], [];
      wire, items, delivered := [], [], [];
      session := session + 1;
      ok := true;
    }

    method Close()
      requires Valid()
      modifies this
      ensures Valid() && !connected && !authenticated && buf == []
      ensures queue == old(queue) && delivered == old(delivered) && items == old(items)
      ensures log == old(log) && numbersTaken == old(numbersTaken) && session == old(session)
      ensures hadTransport == old(hadTransport)
    {
      connected, authenticated, buf := false, false, [];
    }

    method TakeQueuedMessages() returns (frames: seq<Frame>)
      modifies `queue
      ensures frames == old(queue) && queue == []
    {
      frames := [];
      while queue != []
        invariant frames + queue == old(queue)
        decreases |queue|
      {
        frames, queue := frames + [queue[0]], queue[1..];
      }
    }

    method EnqueueUnsolicited(frame: Frame)
      modifies `queue
      ensures queue == old(queue) + [frame]
    {
      queue := queue + [frame];
    }

    function NotConnected(): Fault
      reads this
    {
      if hadTransport then ForcedDisconnect(SessionGone) else ProtocolError(NeverConnected)
    }

    /** Read the next frame. Bytes that are not a frame are consumed and end the call. The network is
        only waited for when the buffer cannot be cut any further. */
    method RecvFrame(script: seq<Net>)
      returns (r: Result<Frame>, rest: seq<Net>, ghost took: seq<Item>, ghost used: seq<Net>)
      requires FollowsWire()
      modifies `buf, `wire, `items
      ensures FollowsWire()
      ensures Read(script, used, rest, old(wire), wire)
      ensures items == old(items) + took && Took(r, took)
      ensures r.Raised? ==> r.fault == Timeout(false) || r.fault.ForcedDisconnect? || r.fault == OutOfScript
                            || r.fault == ProtocolError(NeverConnected)
      ensures Stops(took, used, StopOfRead(r)) && StarvedBy(r, rest)
      ensures !connected ==> r == Raised(NotConnected())
      ensures connected ==> r != Raised(ForcedDisconnect(SessionGone))
      ensures r.Raised? && r.fault.ProtocolError? ==> !connected
      ensures connected && !InspectLeading(old(buf)).NeedMore? && !(script != [] && script[0] == DeadlinePassed) ==>
                used == [] && took == [ItemOf(old(buf))]
      ensures used == [] && r.Ok? ==> |buf| < |old(buf)|
    {
      hide CutsInto, InspectLeading, ItemOf, Read, Stops, EndsWith, AllChunks;
      rest, used, took := script, [], [];
      ReadNothing(script, wire);
      NoChunks();
      ReadStops(used);
      if !connected {
        return Raised(NotConnected()), rest, took, used;
      }
      while true
        invariant connected && FollowsWire() && items == old(items)
        invariant Read(script, used, rest, old(wire), wire)
        invariant used == [] ==> buf == old(buf) && rest == script
        invariant used != [] ==> InspectLeading(old(buf)).NeedMore?
        invariant AllChunks(used) && took == []
        decreases |rest|
      {
        if rest != [] && rest[0] == DeadlinePassed {
          ReadOne(script, used, rest, old(wire), wire);
          OneMoreMet(used, rest[0]);
          return Raised(Timeout(false)), rest[1..], took, used + [rest[0]];
        }
        ReadStops(used);
        var (frame, consumed) := TryDecodeFrame(buf);
        if consumed > 0 {
          var hungUp := consumed == 3 && buf[..3] == MARKER;
          ConsumingKeepsCut(wire, items, buf);
          ItemNamesOutcome(buf);
          took := [ItemOf(buf)];
          items := items + took;
          buf := buf[consumed..];
          if frame.None? {
            return Raised(ForcedDisconnect(if hungUp then SentMarker else OutsideProtocol)), rest, took, used;
          }
          return Ok(frame.value), rest, took, used;
        }
        if rest == [] || rest[0] == WriteError {
          return Raised(OutOfScript), rest, took, used;
        }
        ReadOne(script, used, rest, old(wire), wire);
        OneMoreMet(used, rest[0]);
        var event := rest[0];
        used := used + [event];
        rest := rest[1..];
        match event {
          case Silence => return Raised(Timeout(false)), rest, took, used;
          case ReadError => return Raised(ForcedDisconnect(TransportFailed)), rest, took, used;
          case Chunk(data) =>
            if data == [] {
              assert wire + data == wire;
              return Raised(ForcedDisconnect(PeerClosed)), rest, took, used;
            }
            ReadingKeepsCut(wire, items, buf, data);
            wire := wire + data;
            buf := buf + data;
        }
      }
    }

    /** One read of a command wait: an unsolicited frame is queued. */
    method HearOne(script: seq<Net>)
      returns (r: Result<Frame>, rest: seq<Net>, ghost took: seq<Item>, ghost used: seq<Net>)
      requires FollowsWire() && Conserved() && connected
      modifies `buf, `wire, `items, `queue
      ensures FollowsWire() && Conserved()
      ensures items == old(items) + took && queue == old(queue) + Messages(took) && Took(r, took)
      ensures Read(script, used, rest, old(wire), wire)
      ensures Stops(took, used, StopOfRead(r)) && StarvedBy(r, rest)
      ensures r.Raised? ==> r.fault == Timeout(false) || r.fault.ForcedDisconnect? || r.fault == OutOfScript
      ensures r != Raised(ForcedDisconnect(SessionGone))
      ensures used == [] && r.Ok? ==> |buf| < |old(buf)|
    {
      hide CutsInto, Messages, InspectLeading, ItemOf, Read;
      r, rest, took, used := RecvFrame(script);
      MessagesOfRead(old(items), r, took);
      if r.Ok? && r.value.msgType == TYPE_MESSAGE {
        queue := queue + [r.value];
      }
    }

    /** Wait for the response to a command numbered `sequence`, queueing unsolicited frames. A
        response to another command under that number comes back as it is, for the caller to refuse. */
    method AwaitResponse(sequence: byte, script: seq<Net>)
      returns (r: Result<Frame>, rest: seq<Net>, ghost heard: seq<Item>, ghost used: seq<Net>)
      requires FollowsWire() && Conserved() && connected
      modifies `buf, `wire, `items, `queue
      ensures FollowsWire() && Conserved()
      ensures items == old(items) + heard && Read(script, used, rest, old(wire), wire)
      ensures queue == old(queue) + Messages(heard)
      ensures NoResponse(Earlier(heard), sequence)
      ensures r.Ok? ==> heard != [] && heard[|heard| - 1] == Received(r.value)
                        && ResponseTo(Received(r.value), sequence)
      ensures r.Raised? ==> r.fault.Timeout? || r.fault.ForcedDisconnect? || r.fault == OutOfScript
      ensures Stops(heard, used, StopOfRead(r)) && StarvedBy(r, rest)
      ensures r != Raised(ForcedDisconnect(SessionGone))
      ensures r.Raised? && r.fault.Timeout? ==> r.fault.busy == (Messages(heard) != [])
    {
      hide PanelClient.FollowsWire, PanelClient.Conserved, Messages, Read, Took, NoResponse, Earlier, ResponseTo;
      hide Stops;
      NothingYet(items, queue, sequence);
      rest, heard, used := script, [], [];
      ReadNothing(script, wire);
      var sawEvent := false;
      while true
        invariant FollowsWire() && Conserved() && connected
        invariant items == old(items) + heard && Read(script, used, rest, old(wire), wire)
        invariant queue == old(queue) + Messages(heard)
        invariant NoResponse(heard, sequence) && NoResponse(Earlier(heard), sequence)
        invariant sawEvent == (Messages(heard) != [])
        invariant AllChunks(used) && AllReceived(heard)
        decreases |rest|, |buf|
      {
        if rest != [] && rest[0] == DeadlinePassed {
          ReadOne(script, used, rest, old(wire), wire);
          OneMoreMet(used, rest[0]);
          DeadlineStops(heard, used + [rest[0]]);
          return Raised(Timeout(sawEvent)), rest[1..], heard, used + [rest[0]];
        }
        ghost var unread, middle := rest, wire;
        ghost var took, more;
        r, rest, took, more := HearOne(rest);
        ReadMore(script, used, unread, old(wire), middle, more, rest, wire);
        ReadShortens(unread, more, rest, middle, wire);
        HeardMore(old(items), old(queue), heard, r, took, sequence);
        StopsLater(heard, used, took, more, StopOfRead(r));
        used := used + more;
        heard := heard + took;
        if r.Raised? {
          if r.fault == Timeout(false) {
            r := Raised(Timeout(sawEvent));
          }
          return r, rest, heard, used;
        }
        var frame := r.value;
        if frame.msgType == TYPE_MESSAGE {
          sawEvent := true;
          NotAResponse(frame, sequence);
          continue;
        }
        if frame.msgType != TYPE_RESPONSE || frame.sequence != sequence {
          NotAResponse(frame, sequence);
          continue;
        }
        NotAResponse(frame, sequence);
        return Ok(frame), rest, heard, used;
      }
    }

    /** What a call of `send_command` leaves alone, and how far it moves the histories. */
    twostate predicate OnlyTalked(sent: seq<Exchange>)
      reads this
    {
      && connected == old(connected) && hadTransport == old(hadTransport)
      && session == old(session) && delivered == old(delivered)
      && log == old(log) + sent
      && items == old(items) + Heard(sent)
      && queue == old(queue) + Messages(Heard(sent))
      && wire == old(wire) + BytesRead(MetBy(sent))
      && numbersTaken >= old(numbersTaken)
    }

    method NextSeq() returns (sequence: byte)
      modifies `nextSeq, `numbersTaken
      requires OnWire(numbersTaken, nextSeq)
      ensures OnWire(old(numbersTaken), sequence)
      ensures numbersTaken == old(numbersTaken) + 1 && OnWire(numbersTaken, nextSeq)
    {
      sequence := nextSeq;
      nextSeq := ((nextSeq as nat + 1) % 256) as byte;
      numbersTaken := numbersTaken + 1;
    }

    /** One turn of the retry loop: write the frame, then wait for its response. */
    method Attempt(cmd: byte, sequence: byte, frame: seq<byte>, ghost call: nat, script: seq<Net>)
      returns (reply: Result<Frame>, rest: seq<Net>, ghost e: Exchange)
      requires FollowsWire() && Conserved() && connected && Lawful(log)
      requires numbersTaken > 0 && OnWire(numbersTaken - 1, sequence)
      requires MayFollow(log, session, call, numbersTaken - 1, cmd)
      requires cmd != CMD_LOGIN ==> LoggedIn(log, session)
      modifies `buf, `wire, `items, `queue, `log
      ensures FollowsWire() && Conserved() && Lawful(log)
      ensures e == Exchange(session, call, numbersTaken - 1, cmd, frame, e.met, e.heard, EndingOf(reply, cmd))
      ensures e.Sequence() == sequence
      ensures Read(script, e.met, rest, old(wire), wire)
      ensures log == old(log) + [e] && items == old(items) + e.heard
      ensures queue == old(queue) + Messages(e.heard)
      ensures old(LoggedIn(log, session)) || IsLoginAck(e) ==> LoggedIn(log, session)
      ensures reply.Raised? ==> reply.fault.Timeout? || reply.fault.ForcedDisconnect? || reply.fault == OutOfScript
      ensures script != [] && script[0] == WriteError ==>
                reply == Raised(ForcedDisconnect(TransportFailed)) && e.heard == [] && rest == script[1..]
    {
      hide Read, CutsInto, Lawful, LoggedIn, WellHeard, WellEnded, Messages, IsLoginAck, Stops;
      NothingCuts();
      reply, rest := Raised(ForcedDisconnect(TransportFailed)), script;
      ghost var heard, met := [], [];
      if rest != [] && rest[0] == WriteError {
        WriteFails(script, wire);
        met, rest := [WriteError], rest[1..];
        assert items + heard == items && queue + Messages(heard) == queue;
      } else {
        reply, rest, heard, met := AwaitResponse(sequence, rest);
      }
      e := Exchange(session, call, numbersTaken - 1, cmd, frame, met, heard, EndingOf(reply, cmd));
      WaitIsWellHeard(reply, e);
      WaitIsWellEnded(reply, e);
      LawfulExtends(log, e);
      log := log + [e];
    }

    /** An attempt and what it means for the call: `renumber` asks for a new number before a retry. */
    method Turn(cmd: byte, body: seq<byte>, sequence: byte, ghost call: nat, retryIf: Option<ReplyTest>,
                script: seq<Net>)
      returns (verdict: Verdict, renumber: bool, rest: seq<Net>, ghost e: Exchange)
      requires FollowsWire() && Conserved() && connected && Lawful(log) && BodyFits(body)
      requires numbersTaken > 0 && OnWire(numbersTaken - 1, sequence)
      requires MayFollow(log, session, call, numbersTaken - 1, cmd)
      requires cmd != CMD_LOGIN ==> LoggedIn(log, session)
      modifies `buf, `wire, `items, `queue, `log
      ensures FollowsWire() && Conserved() && Lawful(log)
      ensures e.session == session && e.call == call && e.alloc == numbersTaken - 1 && e.cmd == cmd
      ensures e.octets == CommandOctets(cmd, body, e.Sequence())
      ensures Read(script, e.met, rest, old(wire), wire)
      ensures log == old(log) + [e] && items == old(items) + e.heard
      ensures queue == old(queue) + Messages(e.heard)
      ensures old(LoggedIn(log, session)) || IsLoginAck(e) ==> LoggedIn(log, session)
      ensures verdict.Again? <==> WorthRetrying(e.ending, retryIf)
      ensures verdict.Again? ==> e.Retries() && FreshNumbers(e) == if renumber then 1 else 0
      ensures Concludes(verdict.result, e.ending, cmd, retryIf, true)
      ensures verdict.Done? ==> Concludes(verdict.result, e.ending, cmd, retryIf, false)
    {
      hide CutsInto, Lawful, LoggedIn, Messages, IsLoginAck, MayFollow, Judge, EndingOf, WorthRetrying, Concludes;
      hide CommandOctets, FreshNumbers, IsArmOrDisarm, OnWire, Read, PanelClient.FollowsWire, PanelClient.Conserved;
      var reply;
      reply, rest, e := Attempt(cmd, sequence, CommandOctets(cmd, body, sequence), call, script);
      JudgementMeans(reply, cmd, retryIf);
      verdict := Judge(reply, cmd, retryIf);
      renumber := reply.Raised? && reply.fault.Timeout? && reply.fault.busy && IsArmOrDisarm(cmd);
      if verdict.Again? {
        NumberOfRetry(e, reply);
      }
    }

    /** The retry loop, from the first sequence number on. */
    method RetryLoop(cmd: byte, body: seq<byte>, first: byte, ghost call: nat, retries: nat,
                     retryIf: Option<ReplyTest>, script: seq<Net>)
      returns (r: Result<seq<byte>>, rest: seq<Net>, ghost sent: seq<Exchange>)
      requires FollowsWire() && Conserved() && connected && Lawful(log)
      requires OnWire(numbersTaken, nextSeq)
      requires numbersTaken > 0 && OnWire(numbersTaken - 1, first) && BodyFits(body)
      requires MayFollow(log, session, call, numbersTaken - 1, cmd)
      requires cmd != CMD_LOGIN ==> LoggedIn(log, session)
      modifies `buf, `wire, `items, `queue, `log, `nextSeq, `numbersTaken
      ensures FollowsWire() && Conserved() && Lawful(log) && OnlyTalked(sent)
      ensures OnWire(numbersTaken, nextSeq)
      ensures old(LoggedIn(log, session)) ==> LoggedIn(log, session)
      ensures CallShape(sent, cmd, body, session, call, old(numbersTaken) - 1, retryIf)
      ensures 1 <= |sent| <= retries + 1 && numbersTaken == sent[|sent| - 1].alloc + 1
      ensures Concludes(r, sent[|sent| - 1].ending, cmd, retryIf, |sent| == retries + 1)
      ensures IsLoginAck(sent[|sent| - 1]) ==> LoggedIn(log, session)
      ensures script == MetBy(sent) + rest
    {
      hide CutsInto, Lawful, LoggedIn, WellHeard, Messages, Heard, MetBy, BytesRead, IsLoginAck, CallShape, MayFollow;
      hide Judge, EndingOf, WorthRetrying, Concludes, CommandOctets, Follows, BodyFits, Read, FreshNumbers;
      hide OnWire, Exchange.Sequence, Exchange.Retries;
      hide PanelClient.FollowsWire, PanelClient.Conserved;
      NothingCuts();
      NothingSent(cmd, body, session, call, numbersTaken - 1, retryIf);
      rest, sent := script, [];
      NothingTalked(items, queue, log, wire, script);
      var sequence := first;
      var attempt := 0;
      while true
        invariant FollowsWire() && Conserved() && connected && OnlyTalked(sent) && Lawful(log)
        invariant OnWire(numbersTaken, nextSeq) && OnWire(numbersTaken - 1, sequence)
        invariant old(LoggedIn(log, session)) ==> LoggedIn(log, session)
        invariant |sent| == attempt <= retries && script == MetBy(sent) + rest
        invariant CallShape(sent, cmd, body, session, call, old(numbersTaken) - 1, retryIf)
        invariant sent != [] ==> WorthRetrying(sent[|sent| - 1].ending, retryIf)
        invariant sent == [] ==> numbersTaken == old(numbersTaken)
        invariant MayFollow(log, session, call, numbersTaken - 1, cmd)
        decreases retries - attempt
      {
        var verdict, renumber;
        ghost var e;
        ghost var before, unread, middle := sent, rest, wire;
        verdict, renumber, rest, e := Turn(cmd, body, sequence, call, retryIf, rest);
        HistoriesExtend(old(log), old(items), old(queue), before, e);
        ReadingExtends(script, unread, rest, old(wire), before, e, middle, wire);
        CallShapeExtends(before, e, body, old(numbersTaken) - 1, retryIf);
        sent := sent + [e];
        assert log[|log| - 1] == e && sent[|sent| - 1] == e;
        attempt := attempt + 1;
        if verdict.Done? || attempt > retries {
          return verdict.result, rest, sent;
        }
        RetryMayFollow(log, e);
        if renumber {
          sequence := NextSeq();
        }
      }
    }

    /** Why a command is refused before anything is written, if it is. */
    function Refusal(cmd: byte, body: seq<byte>): Option<Fault>
      reads this
    {
      if !connected then Some(NotConnected())
      else if cmd != CMD_LOGIN && !authenticated then Some(ProtocolError(NotLoggedIn))
      else if !BodyFits(body) then Some(ValueError)
      else None
    }

    /** Nothing else stops a command from being written. */
    lemma RefusedIff(cmd: byte, body: seq<byte>)
      ensures Refusal(cmd, body).None? <==> connected && (cmd == 1 || authenticated) && |body| <= 249
      ensures Refusal(cmd, body) == Some(ForcedDisconnect(SessionGone)) <==> !connected && hadTransport
      ensures Refusal(cmd, body) == Some(ProtocolError(NeverConnected)) <==> !connected && !hadTransport
    {
    }

    /** Send a command and return the body of its reply, retrying within the budget. */
    method SendCommand(cmd: byte, body: seq<byte>, retries: nat, retryIf: Option<ReplyTest>, script: seq<Net>)
      returns (r: Result<seq<byte>>, rest: seq<Net>, ghost sent: seq<Exchange>)
      requires Valid()
      modifies this
      ensures Valid() && OnlyTalked(sent) && authenticated == old(authenticated)
      ensures CallShape(sent, cmd, body, session, old(calls), old(numbersTaken), retryIf)
      ensures |sent| <= retries + 1 && script == MetBy(sent) + rest
      ensures sent != [] ==> Concludes(r, sent[|sent| - 1].ending, cmd, retryIf, |sent| == retries + 1)
      ensures sent != [] && IsLoginAck(sent[|sent| - 1]) ==> LoggedIn(log, session)
      ensures match old(Refusal(cmd, body))
              case None => sent != []
              case Some(fault) => sent == [] && r == Raised(fault)
    {
      hide CutsInto, Lawful, LoggedIn, WellHeard, Messages, Heard, MetBy, BytesRead, IsLoginAck, EncodeCommand;
      hide Concludes, CallShape, MayFollow;
      NothingCuts();
      NothingSent(cmd, body, session, calls, numbersTaken, retryIf);
      NothingTalked(items, queue, log, wire, script);
      rest, sent := script, [];
      if !connected {
        return Raised(NotConnected()), rest, sent;
      }
      if cmd != CMD_LOGIN && !authenticated {
        return Raised(ProtocolError(NotLoggedIn)), rest, sent;
      }
      ghost var call := calls;
      calls := calls + 1;
      var sequence := NextSeq();
      BodyFitsIff(cmd, body, sequence);
      if !EncodeCommand(cmd, body, sequence as int).Wire? {
        return Raised(ValueError), rest, sent;
      }
      NewCallMayFollow(log, session, call, numbersTaken - 1, cmd);
      r, rest, sent := RetryLoop(cmd, body, sequence, call, retries, retryIf, rest);
      LastOfCall(sent, cmd, body, session, call, old(numbersTaken), retryIf);
      assert log[|log| - 1] == sent[|sent| - 1];
    }

    method Login(password: seq<byte>, loginRetries: nat, script: seq<Net>)
      returns (r: Result<()>, rest: seq<Net>, ghost sent: seq<Exchange>)
      requires Valid()
      modifies this
      ensures Valid() && OnlyTalked(sent)
      ensures authenticated == (old(authenticated) || r.Ok?)
      ensures CallShape(sent, CMD_LOGIN, password, session, old(calls), old(numbersTaken), None)
      ensures script == MetBy(sent) + rest && Settles(r, sent, loginRetries)
      ensures sent == [] <==> old(Refusal(CMD_LOGIN, password)).Some?
      ensures sent == [] ==> r == Raised(old(Refusal(CMD_LOGIN, password)).value)
      ensures r.Ok? <==> LastAnswered(sent) && LastReply(sent) == [CMD_LOGIN, ACK]
    {
      hide CutsInto, Lawful, LoggedIn, Heard, MetBy, Messages;
      var reply;
      reply, rest, sent := SendCommand(CMD_LOGIN, password, loginRetries, None, script);
      if sent != [] {
        ConcludedSettles(reply, sent, CMD_LOGIN, loginRetries);
      }
      hide Concludes;
      if reply.Raised? {
        return Raised(reply.fault), rest, sent;
      }
      AckedReply(reply.value);
      if |reply.value| == 1 && reply.value[0] == ACK {
        assert reply.value == [ACK];
        authenticated := true;
        return Ok(()), rest, sent;
      }
      return Raised(ProtocolError(Rejected)), rest, sent;
    }

    /** A command whose reply must have exactly `length` octets. */
    method Query(cmd: byte, body: seq<byte>, length: nat, retries: nat, script: seq<Net>)
      returns (r: Result<seq<byte>>, rest: seq<Net>, ghost sent: seq<Exchange>)
      requires Valid()
      modifies this
      ensures Valid() && OnlyTalked(sent) && authenticated == old(authenticated)
      ensures CallShape(sent, cmd, body, session, old(calls), old(numbersTaken), None)
      ensures script == MetBy(sent) + rest && Settles(r, sent, retries) && Returned(r, cmd, length, sent)
      ensures sent == [] <==> old(Refusal(cmd, body)).Some?
      ensures sent == [] ==> r == Raised(old(Refusal(cmd, body)).value)
    {
      hide CutsInto, Lawful, LoggedIn, Heard, MetBy, Messages, CallShape;
      r, rest, sent := SendCommand(cmd, body, retries, None, script);
      if sent != [] {
        ConcludedSettles(r, sent, cmd, retries);
      }
      hide Concludes;
      if r.Ok? {
        QueryReturns(r.value, cmd, length);
        if |r.value| != length {
          if |r.value| == 1 && r.value[0] == NAK {
            assert r.value == [NAK];
            return Raised(ProtocolError(Rejected)), rest, sent;
          }
          return Raised(ProtocolError(WrongShape)), rest, sent;
        }
      }
    }

    /** One GETDATETIME, never retried within the call. */
    method Keepalive(script: seq<Net>)
      returns (r: Result<seq<byte>>, rest: seq<Net>, ghost sent: seq<Exchange>)
      requires Valid()
      modifies this
      ensures Valid() && OnlyTalked(sent) && authenticated == old(authenticated)
      ensures CallShape(sent, CMD_GETDATETIME, [], session, old(calls), old(numbersTaken), None)
      ensures script == MetBy(sent) + rest && Settles(r, sent, 0) && Returned(r, CMD_GETDATETIME, 6, sent)
      ensures sent == [] <==> old(Refusal(CMD_GETDATETIME, [])).Some?
      ensures sent == [] ==> r == Raised(old(Refusal(CMD_GETDATETIME, [])).value)
    {
      hide Settles, Returned, CallShape;
      r, rest, sent := Query(CMD_GETDATETIME, [], 6, 0, script);
    }

    method GetZoneState(start: int, count: int, script: seq<Net>)
      returns (r: Result<seq<byte>>, rest: seq<Net>, ghost sent: seq<Exchange>)
      requires Valid()
      modifies this
      ensures Valid() && OnlyTalked(sent) && authenticated == old(authenticated)
      ensures script == MetBy(sent) + rest
      ensures !AcceptableZones(start, count) ==> r == Raised(ProtocolError(BadArgument)) && sent == []
      ensures AcceptableZones(start, count) ==>
                var body := [start as byte, count as byte];
                && CallShape(sent, CMD_GET_ZONE_STATE, body, session, old(calls), old(numbersTaken), None)
                && Settles(r, sent, 1) && Returned(r, CMD_GET_ZONE_STATE, count, sent)
                && (sent == [] <==> old(Refusal(CMD_GET_ZONE_STATE, body)).Some?)
                && (sent == [] ==> r == Raised(old(Refusal(CMD_GET_ZONE_STATE, body)).value) && NeverSent(r.fault))
    {
      hide Settles, Returned, CallShape;
      if count < 1 || count > MAX_ZONES_PER_STATE_REQUEST || !(1 <= start <= 255) {
        NothingAdded(script);
        return Raised(ProtocolError(BadArgument)), script, [];
      }
      r, rest, sent := Query(CMD_GET_ZONE_STATE, [start as byte, count as byte], count, 1, script);
    }

    method GetAreaFlags(start: int, count: int, areaSize: int, script: seq<Net>)
      returns (r: Result<seq<byte>>, rest: seq<Net>, ghost sent: seq<Exchange>)
      requires Valid()
      modifies this
      ensures Valid() && OnlyTalked(sent) && authenticated == old(authenticated)
      ensures script == MetBy(sent) + rest
      ensures !AcceptableAreas(start, count, areaSize) ==> r == Raised(ProtocolError(BadArgument)) && sent == []
      ensures AcceptableAreas(start, count, areaSize) ==>
                var body := [start as byte, count as byte];
                && CallShape(sent, CMD_GET_AREA_FLAGS, body, session, old(calls), old(numbersTaken), None)
                && Settles(r, sent, 1) && Returned(r, CMD_GET_AREA_FLAGS, count * areaSize, sent)
                && (sent == [] <==> old(Refusal(CMD_GET_AREA_FLAGS, body)).Some?)
                && (sent == [] ==> r == Raised(old(Refusal(CMD_GET_AREA_FLAGS, body)).value))
    {
      hide Settles, Returned, CallShape;
      if count < 1 || count > AREA_FLAGS_COUNT || !(0 <= start <= 255) || areaSize < 1 {
        NothingAdded(script);
        return Raised(ProtocolError(BadArgument)), script, [];
      }
      r, rest, sent := Query(CMD_GET_AREA_FLAGS, [start as byte, count as byte], count * areaSize, 1, script);
    }

    /** Commands the panel refuses with a reply that starts with NAK. */
    method Order(cmd: byte, body: seq<byte>, script: seq<Net>)
      returns (r: Result<()>, rest: seq<Net>, ghost sent: seq<Exchange>)
      requires Valid()
      modifies this
      ensures Valid() && OnlyTalked(sent) && authenticated == old(authenticated)
      ensures CallShape(sent, cmd, body, session, old(calls), old(numbersTaken), None)
      ensures script == MetBy(sent) + rest && Settles(r, sent, 1) && Obeyed(r, cmd, sent)
      ensures sent == [] <==> old(Refusal(cmd, body)).Some?
      ensures sent == [] ==> r == Raised(old(Refusal(cmd, body)).value)
    {
      hide CutsInto, Lawful, LoggedIn, Heard, MetBy, Messages, CallShape;
      var reply;
      reply, rest, sent := SendCommand(cmd, body, 1, None, script);
      if sent != [] {
        ConcludedSettles(reply, sent, cmd, 1);
      }
      hide Concludes;
      if reply.Raised? {
        return Raised(reply.fault), rest, sent;
      }
      RefusedReply(cmd, reply.value);
      if |reply.value| >= 1 && reply.value[0] == NAK {
        return Raised(ProtocolError(Rejected)), rest, sent;
      }
      return Ok(()), rest, sent;
    }

    method SetAreaArm(mode: byte, script: seq<Net>)
      returns (r: Result<()>, rest: seq<Net>, ghost sent: seq<Exchange>)
      requires Valid()
      modifies this
      ensures Valid() && OnlyTalked(sent) && authenticated == old(authenticated)
      ensures CallShape(sent, CMD_SET_AREA_ARM, [mode, 0x01], session, old(calls), old(numbersTaken), None)
      ensures script == MetBy(sent) + rest && Settles(r, sent, 1) && Obeyed(r, CMD_SET_AREA_ARM, sent)
      ensures sent == [] <==> old(Refusal(CMD_SET_AREA_ARM, [mode, 0x01])).Some?
      ensures sent == [] ==> r == Raised(old(Refusal(CMD_SET_AREA_ARM, [mode, 0x01])).value)
    {
      hide Settles, Obeyed, CallShape;
      r, rest, sent := Order(CMD_SET_AREA_ARM, [mode, 0x01], script);
    }

    method SetAreaDisarm(script: seq<Net>)
      returns (r: Result<()>, rest: seq<Net>, ghost sent: seq<Exchange>)
      requires Valid()
      modifies this
      ensures Valid() && OnlyTalked(sent) && authenticated == old(authenticated)
      ensures CallShape(sent, CMD_SET_AREA_DISARM, [0x01], session, old(calls), old(numbersTaken), None)
      ensures script == MetBy(sent) + rest && Settles(r, sent, 1) && Obeyed(r, CMD_SET_AREA_DISARM, sent)
      ensures sent == [] <==> old(Refusal(CMD_SET_AREA_DISARM, [0x01])).Some?
      ensures sent == [] ==> r == Raised(old(Refusal(CMD_SET_AREA_DISARM, [0x01])).value)
    {
      hide Settles, Obeyed, CallShape;
      r, rest, sent := Order(CMD_SET_AREA_DISARM, [0x01], script);
    }

    method SetEventMessages(script: seq<Net>)
      returns (r: Result<()>, rest: seq<Net>, ghost sent: seq<Exchange>)
      requires Valid()
      modifies this
      ensures Valid() && OnlyTalked(sent) && authenticated == old(authenticated)
      ensures CallShape(sent, CMD_SETEVENTMESSAGES, [0x3F, 0x00], session, old(calls), old(numbersTaken), None)
      ensures script == MetBy(sent) + rest && Settles(r, sent, 1) && Obeyed(r, CMD_SETEVENTMESSAGES, sent)
      ensures sent == [] <==> old(Refusal(CMD_SETEVENTMESSAGES, [0x3F, 0x00])).Some?
      ensures sent == [] ==> r == Raised(old(Refusal(CMD_SETEVENTMESSAGES, [0x3F, 0x00])).value)
    {
      hide Settles, Obeyed, CallShape;
      r, rest, sent := Order(CMD_SETEVENTMESSAGES, [0x3F, 0x00], script);
    }

    twostate lemma NothingAdded(script: seq<Net>)
      requires unchanged(this)
      ensures OnlyTalked([]) && script == MetBy([]) + script
    {
      NothingTalked(items, queue, log, wire, script);
    }

    /** One turn of `recv_message`: the front of the queue, else one slice of reading, unless its own
        deadline has passed. `Ok(None)` means that the turn yielded no unsolicited frame. Only on
        `entering` does it look at the transport before its deadline. */
    method RecvMessage(entering: bool, script: seq<Net>)
      returns (r: Result<Option<Frame>>, rest: seq<Net>, ghost took: seq<Item>, ghost used: seq<Net>)
      requires Valid()
      modifies `buf, `wire, `items, `queue, `delivered
      ensures Valid()
      ensures delivered == old(delivered) + (if r.Ok? && r.value.Some? then [r.value.value] else [])
      ensures r.Ok? && r.value.Some? ==> r.value.value.msgType == TYPE_MESSAGE
      ensures items == old(items) + took && Read(script, used, rest, old(wire), wire)
      ensures old(queue) != [] ==>
                r == Ok(Some(old(queue)[0])) && queue == old(queue)[1..] && took == [] && used == []
      ensures old(queue) == [] ==> queue == []
      ensures old(queue) == [] ==> TurnEnds(r, entering, connected, NotConnected(), script, took, used, rest)
    {
      hide CutsInto, Lawful, LoggedIn, Messages, Read, Stops;
      ReadNothing(script, wire);
      assert items + [] == items;
      if queue != [] {
        QueuedAreMessages(items, delivered, queue);
        var frame := queue[0];
        queue, delivered := queue[1..], delivered + [frame];
        return Ok(Some(frame)), script, [], [];
      }
      if entering && !connected {
        return Raised(NotConnected()), script, [], [];
      }
      if script != [] && script[0] == DeadlinePassed {
        ReadOne(script, [], script, wire, wire);
        assert [] + [script[0]] == [DeadlinePassed];
        return Raised(Timeout(false)), script[1..], [], [DeadlinePassed];
      }
      var read;
      ghost var before := items;
      read, rest, took, used := RecvFrame(script);
      MessagesOfRead(before, read, took);
      r := if read.Raised? then if read.fault == Timeout(false) then Ok(None) else Raised(read.fault)
           else if read.value.msgType == TYPE_MESSAGE then Ok(Some(read.value)) else Ok(None);
      if r.Ok? && r.value.Some? {
        delivered := delivered + [read.value];
      }
      TurnOfRead(read, r, connected, NotConnected(), script, took, used, rest);
    }
  }
}
