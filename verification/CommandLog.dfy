/** The history of command frames a client has put on the wire, one entry for each transmission,
    and what can be concluded from the way `send_command` numbers them. */
module CommandLog {
  import opened Bytes
  import opened Frames
  import opened Streams

  /** What one await of the transport meets. An empty chunk is end of file. */
  datatype Net = Chunk(data: seq<byte>) | Silence | DeadlinePassed | ReadError | WriteError

  datatype Loss = SentMarker | OutsideProtocol | TransportFailed | PeerClosed | SessionGone

  /** Why a stretch of reading stops. */
  datatype Stop = Whole | Waiting | Deadline | Lost(why: Loss)

  datatype Ending =
    | Answered(reply: Frame)
    | Mismatched(reply: Frame)
    | TimedOut(busy: bool)
    | Broken(why: Loss)
    | Unfinished

  /** One transmission and the wait that followed it.
      `call` numbers the invocations of `send_command`, `alloc` the sequence numbers ever taken
      from the counter, so the octet on the wire is `alloc % 256`. `octets` is the frame written,
      `met` what the network did from the write on, and `heard` the items that were read. */
  datatype Exchange = Exchange(
    session: nat, call: nat, alloc: nat, cmd: byte, octets: seq<byte>, met: seq<Net>, heard: seq<Item>,
    ending: Ending)
  {
    function Sequence(): byte { (alloc % 256) as byte }

    predicate Retries() { ending.TimedOut? || ending.Answered? }
  }

  // ----- What stops a stretch of reading -----

  predicate AllChunks(met: seq<Net>) {
    forall i :: 0 <= i < |met| ==> met[i].Chunk? && met[i].data != []
  }

  predicate AllReceived(items: seq<Item>) {
    forall i :: 0 <= i < |items| ==> items[i].Received?
  }

  /** Chunks, and then this. */
  predicate EndsWith(met: seq<Net>, last: Net) {
    met != [] && AllChunks(met[..|met| - 1]) && met[|met| - 1] == last
  }

  /** Each way of stopping has its own cause, on the network or in the stream, and nothing else
      went before it but bytes and frames. */
  predicate Stops(items: seq<Item>, met: seq<Net>, stop: Stop) {
    match stop
    case Whole => AllChunks(met) && AllReceived(items) && items != []
    case Waiting => AllChunks(met) && AllReceived(items)
    case Deadline => (EndsWith(met, Silence) || EndsWith(met, DeadlinePassed)) && AllReceived(items)
    case Lost(SentMarker) =>
      AllChunks(met) && items != [] && AllReceived(items[..|items| - 1]) && items[|items| - 1] == HangUp
    case Lost(OutsideProtocol) =>
      AllChunks(met) && items != [] && AllReceived(items[..|items| - 1]) && items[|items| - 1].Noise?
    case Lost(TransportFailed) => EndsWith(met, ReadError) && AllReceived(items)
    case Lost(PeerClosed) => EndsWith(met, Chunk([])) && AllReceived(items)
    case Lost(SessionGone) => met == [] && items == []
  }

  lemma StopsLater(items: seq<Item>, met: seq<Net>, more: seq<Item>, later: seq<Net>, stop: Stop)
    requires AllReceived(items) && AllChunks(met) && Stops(more, later, stop) && stop != Lost(SessionGone)
    ensures Stops(items + more, met + later, stop)
    ensures stop.Whole? || stop.Waiting? ==> AllReceived(items + more) && AllChunks(met + later)
  {
    if later != [] {
      assert (met + later)[..|met + later| - 1] == met + later[..|later| - 1];
    }
    if more != [] {
      assert (items + more)[..|items + more| - 1] == items + more[..|more| - 1];
    }
  }

  function StopOf(ending: Ending): Stop {
    match ending
    case Answered(_) => Whole
    case Mismatched(_) => Whole
    case TimedOut(_) => Deadline
    case Broken(why) => Lost(why)
    case Unfinished => Waiting
  }

  /** The bodies whose command frame has a length octet. */
  predicate BodyFits(body: seq<byte>) { |body| <= 249 }

  function CommandOctets(cmd: byte, body: seq<byte>, sequence: byte): seq<byte>
    requires BodyFits(body)
  {
    EncodeCommand(cmd, body, sequence as int).bytes
  }

  predicate IsArmOrDisarm(cmd: byte) {
    cmd == CMD_SET_AREA_ARM || cmd == CMD_SET_AREA_DISARM
  }

  /** The sequence numbers a retry takes: one after a busy arm/disarm wait, else none. */
  function FreshNumbers(e: Exchange): nat {
    if e.ending == TimedOut(true) && IsArmOrDisarm(e.cmd) then 1 else 0
  }

  predicate ResponseTo(item: Item, sequence: byte) {
    item.Received? && item.frame.msgType == TYPE_RESPONSE && item.frame.sequence == sequence
  }

  predicate RightCommand(reply: Frame, cmd: byte) {
    reply.body != [] && reply.body[0] == cmd
  }

  /** A wait ends on the first response that carries the waiting sequence number. */
  predicate EndsOn(e: Exchange, reply: Frame) {
    && e.heard != []
    && e.heard[|e.heard| - 1] == Received(reply)
    && ResponseTo(Received(reply), e.Sequence())
  }

  ghost predicate WellHeard(e: Exchange) {
    && (forall i :: 0 <= i < |e.heard| - 1 ==> !ResponseTo(e.heard[i], e.Sequence()))
    && match e.ending
       case Answered(reply) => EndsOn(e, reply) && RightCommand(reply, e.cmd)
       case Mismatched(reply) => EndsOn(e, reply) && !RightCommand(reply, e.cmd)
       case TimedOut(busy) => busy == (Messages(e.heard) != [])
       case _ => true
  }

  /** The wait ended for the reason given, or the write itself failed. */
  ghost predicate WellEnded(e: Exchange) {
    || Stops(e.heard, e.met, StopOf(e.ending))
    || (e.met == [WriteError] && e.heard == [] && e.ending == Broken(TransportFailed))
  }

  /** `b` is the next transmission after `a`: a retry of the same call, or a later call. */
  predicate Follows(a: Exchange, b: Exchange) {
    if a.call == b.call then
      a.session == b.session && a.cmd == b.cmd && a.Retries() && b.alloc == a.alloc + FreshNumbers(a)
    else
      a.call < b.call && a.alloc < b.alloc && a.session <= b.session
  }

  predicate IsLoginAck(e: Exchange) {
    e.cmd == CMD_LOGIN && e.ending.Answered? && e.ending.reply.body == [CMD_LOGIN, ACK]
  }

  ghost predicate LoggedIn(log: seq<Exchange>, session: nat) {
    exists i :: 0 <= i < |log| && log[i].session == session && IsLoginAck(log[i])
  }

  ghost predicate LoginFirst(log: seq<Exchange>, j: nat)
    requires j < |log|
  {
    log[j].cmd != CMD_LOGIN ==> LoggedIn(log[..j], log[j].session)
  }

  ghost predicate Lawful(log: seq<Exchange>) {
    && (forall i :: 0 <= i < |log| ==> WellHeard(log[i]) && WellEnded(log[i]))
    && (forall i :: 0 <= i < |log| - 1 ==> Follows(log[i], log[i + 1]))
    && (forall j :: 0 <= j < |log| ==> LoginFirst(log, j))
  }

  lemma LawfulExtends(log: seq<Exchange>, e: Exchange)
    requires Lawful(log) && WellHeard(e) && WellEnded(e)
    requires log != [] ==> Follows(log[|log| - 1], e)
    requires e.cmd != CMD_LOGIN ==> LoggedIn(log, e.session)
    ensures Lawful(log + [e])
    ensures LoggedIn(log, e.session) ==> LoggedIn(log + [e], e.session)
    ensures IsLoginAck(e) ==> LoggedIn(log + [e], e.session)
  {
    hide WellHeard, WellEnded, Follows, IsLoginAck;
    var longer := log + [e];
    forall j | 0 <= j < |longer| ensures LoginFirst(longer, j) {
      assert longer[..j] == if j < |log| then log[..j] else log;
      if j < |log| {
        assert LoginFirst(log, j);
      }
    }
    if LoggedIn(log, e.session) {
      var i :| 0 <= i < |log| && log[i].session == e.session && IsLoginAck(log[i]);
      assert longer[i] == log[i];
    }
    assert longer[|log|] == e;
  }

  lemma {:induction false} NumbersOnlyGrow(log: seq<Exchange>, i: nat, j: nat)
    requires Lawful(log) && i <= j < |log|
    ensures log[i].alloc <= log[j].alloc && log[i].call <= log[j].call && log[i].session <= log[j].session
    ensures log[i].alloc == log[j].alloc ==>
              log[i].call == log[j].call && log[i].cmd == log[j].cmd && log[i].session == log[j].session
    decreases j - i
  {
    if i < j {
      assert Follows(log[j - 1], log[j - 1 + 1]);
      NumbersOnlyGrow(log, i, j - 1);
    }
  }

  /** Before any command but LOGIN goes out, the same session has had a LOGIN acknowledged, and no
      other session came in between. */
  lemma LoginBeforeAnythingElse(log: seq<Exchange>, j: nat)
    requires Lawful(log) && j < |log| && log[j].cmd != CMD_LOGIN
    ensures exists i :: 0 <= i < j && IsLoginAck(log[i])
                        && forall k :: i <= k <= j ==> log[k].session == log[j].session
  {
    assert LoginFirst(log, j);
    var i :| 0 <= i < |log[..j]| && log[..j][i].session == log[j].session && IsLoginAck(log[..j][i]);
    forall k | i <= k <= j ensures log[k].session == log[j].session {
      NumbersOnlyGrow(log, i, k);
      NumbersOnlyGrow(log, k, j);
    }
    assert IsLoginAck(log[i]);
  }

  /** How many of the waits were of an arm or disarm that heard an unsolicited frame and gave up. */
  function BusyWaits(es: seq<Exchange>): nat {
    if es == [] then 0
    else BusyWaits(es[..|es| - 1]) +
         (if es[|es| - 1].cmd in {6, 8} && es[|es| - 1].ending.TimedOut?
             && Messages(es[|es| - 1].heard) != [] then 1 else 0)
  }

  /** Within one call, sequence numbers are taken for busy arm/disarm waits and for nothing else. */
  lemma {:induction false} RetriesRenumberOnlyWhenBusy(log: seq<Exchange>, i: nat, j: nat)
    requires Lawful(log) && i <= j < |log| && log[i].call == log[j].call
    ensures log[j].alloc == log[i].alloc + BusyWaits(log[i..j])
    ensures log[j].cmd == log[i].cmd
    decreases j - i
  {
    hide LoginFirst, WellEnded, EndsOn, Messages, RightCommand, Stops;
    if i < j {
      NumbersOnlyGrow(log, i, j - 1);
      NumbersOnlyGrow(log, j - 1, j);
      assert Follows(log[j - 1], log[j - 1 + 1]);
      assert WellHeard(log[j - 1]);
      RetriesRenumberOnlyWhenBusy(log, i, j - 1);
      assert log[i..j][..j - i - 1] == log[i..j - 1];
    } else {
      assert log[i..j] == [];
    }
  }

  lemma SameOctetNearby(m: nat, n: nat)
    requires m <= n && m % 256 == n % 256
    ensures n - m < 256 <==> m == n
  {
  }

  /** A panel that only ever echoes what it was sent. */
  predicate Answers(reply: Frame, e: Exchange) {
    reply.sequence == e.Sequence() && RightCommand(reply, e.cmd)
  }

  /** Let a reply to transmission `j` be the one that ends the wait of transmission `n`. It answers
      the very number waited for if and only if fewer than 256 numbers have been taken in between,
      and then it answers the same call and is accepted. Otherwise it answers another call, unless
      that one call made more than 256 transmissions. */
  lemma NoStaleReply(log: seq<Exchange>, j: nat, n: nat, reply: Frame)
    requires Lawful(log) && j <= n < |log|
    requires log[n].ending == Answered(reply) || log[n].ending == Mismatched(reply)
    requires Answers(reply, log[j])
    ensures log[n].alloc - log[j].alloc < 256 <==> log[j].alloc == log[n].alloc
    ensures log[n].alloc - log[j].alloc < 256 ==>
              log[j].call == log[n].call && log[j].session == log[n].session && log[n].ending.Answered?
    ensures log[n].alloc - log[j].alloc >= 256 ==> log[j].call < log[n].call || n - j >= 256
  {
    NumbersOnlyGrow(log, j, n);
    assert WellHeard(log[n]);
    SameOctetNearby(log[j].alloc, log[n].alloc);
    if log[j].call == log[n].call {
      RetriesRenumberOnlyWhenBusy(log, j, n);
      BusyWaitsAtMostAll(log[j..n]);
    }
  }

  lemma {:induction false} BusyWaitsAtMostAll(es: seq<Exchange>)
    ensures BusyWaits(es) <= |es|
    decreases |es|
  {
    if es != [] {
      BusyWaitsAtMostAll(es[..|es| - 1]);
    }
  }

  /** Every reply in the history echoes some transmission fewer than 256 numbers before the wait
      that it ended. */
  ghost predicate PromptPanel(log: seq<Exchange>) {
    forall n :: 0 <= n < |log| && (log[n].ending.Answered? || log[n].ending.Mismatched?) ==> PromptReply(log, n)
  }

  ghost predicate PromptReply(log: seq<Exchange>, n: nat)
    requires n < |log| && (log[n].ending.Answered? || log[n].ending.Mismatched?)
  {
    exists j :: 0 <= j <= n && Answers(log[n].ending.reply, log[j]) && log[n].alloc - log[j].alloc < 256
  }

  /** With such a panel, over the whole life of the client, over any number of sessions and any
      interleaving of late replies, events and retries, no call ever takes another call's reply for
      its own, and the mismatch error is never raised. */
  lemma PromptPanelNeverMisleads(log: seq<Exchange>)
    requires Lawful(log) && PromptPanel(log)
    ensures forall n :: 0 <= n < |log| ==> !log[n].ending.Mismatched?
    ensures forall n :: 0 <= n < |log| && log[n].ending.Answered? ==>
              exists j :: 0 <= j <= n && Answers(log[n].ending.reply, log[j])
                          && log[j].call == log[n].call && log[j].session == log[n].session
  {
    forall n | 0 <= n < |log| && (log[n].ending.Answered? || log[n].ending.Mismatched?)
      ensures log[n].ending.Answered?
      ensures exists j :: 0 <= j <= n && Answers(log[n].ending.reply, log[j])
                          && log[j].call == log[n].call && log[j].session == log[n].session
    {
      assert PromptReply(log, n);
      var j :| 0 <= j <= n && Answers(log[n].ending.reply, log[j]) && log[n].alloc - log[j].alloc < 256;
      NoStaleReply(log, j, n, log[n].ending.reply);
    }
  }

  /** The mismatch error can only be raised by a reply at least 256 numbers late. */
  lemma MismatchMeansVeryLate(log: seq<Exchange>, j: nat, n: nat)
    requires Lawful(log) && j <= n < |log| && log[n].ending.Mismatched?
    requires Answers(log[n].ending.reply, log[j])
    ensures log[n].alloc - log[j].alloc >= 256
  {
    NoStaleReply(log, j, n, log[n].ending.reply);
  }

  // ----- The window is tight -----

  /** Entry `k` of a session that logs in and then checks in once a call: check-in 1 gets no reply in
      time, the later ones get theirs. */
  function CheckinSession(k: nat): (e: Exchange)
    ensures e.session == 1 && e.call == e.alloc == k && e.cmd == (if k == 0 then CMD_LOGIN else CMD_GETDATETIME)
  {
    var sequence := (k % 256) as byte;
    if k == 0 then
      var ack := Frame(TYPE_RESPONSE, 0, [CMD_LOGIN, ACK]);
      Exchange(1, 0, 0, CMD_LOGIN, CommandOctets(CMD_LOGIN, LOGIN_BODY, 0),
               [Chunk(Encoded(ack))], [Received(ack)], Answered(ack))
    else if k == 1 then
      Exchange(1, 1, 1, CMD_GETDATETIME, CommandOctets(CMD_GETDATETIME, [], 1),
               [Silence], [], TimedOut(false))
    else
      var reply := CheckinReply(sequence);
      Exchange(1, k, k, CMD_GETDATETIME, CommandOctets(CMD_GETDATETIME, [], sequence),
               [Chunk(Encoded(reply))], [Received(reply)], Answered(reply))
  }

  const LOGIN_BODY: seq<byte> := [49, 50, 51, 52]

  function CheckinReply(sequence: byte): Frame {
    Frame(TYPE_RESPONSE, sequence, [CMD_GETDATETIME, 1, 1, 25, 12, 0, 0])
  }

  function CheckinLog(n: nat): seq<Exchange> { seq(n, k requires 0 <= k < n => CheckinSession(k)) }

  lemma {:induction false} CheckinLogIsLawful(n: nat)
    requires n >= 1
    ensures Lawful(CheckinLog(n)) && LoggedIn(CheckinLog(n), 1)
  {
    hide Lawful, LoggedIn, CheckinSession, WellHeard, WellEnded, Follows;
    var e := CheckinSession(n - 1);
    CheckinIsWellHeard(n - 1);
    assert CheckinLog(n) == CheckinLog(n - 1) + [e];
    if n == 1 {
      EmptyLogIsLawful();
      LawfulExtends([], e);
    } else {
      CheckinLogIsLawful(n - 1);
      CheckinFollows(n - 1);
      assert CheckinLog(n - 1)[n - 2] == CheckinSession(n - 2);
      LawfulExtends(CheckinLog(n - 1), e);
    }
  }

  lemma CheckinFollows(k: nat)
    requires k > 0
    ensures Follows(CheckinSession(k - 1), CheckinSession(k))
  {
    hide CommandOctets, Encoded;
  }

  lemma EmptyLogIsLawful()
    ensures Lawful([]) && CheckinLog(0) == []
  {
  }

  lemma CheckinIsWellHeard(k: nat)
    ensures WellHeard(CheckinSession(k)) && WellEnded(CheckinSession(k)) && (k == 0 ==> IsLoginAck(CheckinSession(k)))
  {
  }

  /** A late reply taken as fresh, in a history where every number has its one transmission and every
      frame written is the command's own: the check-in under number 1 gets no reply in time, those
      under 2 to 256 get theirs, and the 257th, on the wire again under 1, is answered by the reply
      that number 1 was waiting for. */
  lemma StaleReplyAcceptedAfter256() returns (log: seq<Exchange>, reply: Frame)
    ensures |log| == 258 && Lawful(log)
    ensures forall k: nat :: k < |log| ==>
              && log[k].call == log[k].alloc == k
              && log[k].octets == CommandOctets(log[k].cmd, if k == 0 then LOGIN_BODY else [], log[k].Sequence())
    ensures log[1].ending == TimedOut(false) && Answers(reply, log[1])
    ensures log[257].ending == Answered(reply)
  {
    hide Lawful, LoggedIn, CommandOctets;
    log := CheckinLog(258);
    reply := CheckinReply(1);
    CheckinLogIsLawful(258);
  }
}
