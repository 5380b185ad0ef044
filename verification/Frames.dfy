/** Connect-protocol frames (frame.py): header 't', type, length, sequence; body; check octet. */
module Frames {
  import opened Bytes
  import Crc

  const HEADER_START: byte := 0x74
  const TYPE_COMMAND: byte := 0x43
  const TYPE_RESPONSE: byte := 0x52
  const TYPE_MESSAGE: byte := 0x4D
  const HEADER_LEN: nat := 4
  const MARKER: seq<byte> := [0x2B, 0x2B, 0x2B]

  const CMD_LOGIN: byte := 1
  const CMD_GET_ZONE_STATE: byte := 2
  const CMD_SET_AREA_ARM: byte := 6
  const CMD_SET_AREA_DISARM: byte := 8
  const CMD_GET_AREA_FLAGS: byte := 11
  const CMD_GETDATETIME: byte := 23
  const CMD_SETEVENTMESSAGES: byte := 37

  const AREA_FLAGS_COUNT: nat := 72
  const MSG_ZONE: byte := 1
  const MSG_AREA: byte := 2
  const MSG_LOG: byte := 5
  const ACK: byte := 0x06
  const NAK: byte := 0x15
  const MAX_ZONES_PER_STATE_REQUEST: nat := 168

  datatype Frame = Frame(msgType: byte, sequence: byte, body: seq<byte>)

  predicate KnownType(t: byte) {
    t == TYPE_COMMAND || t == TYPE_RESPONSE || t == TYPE_MESSAGE
  }

  /** The bodies that leave the length octet in range. */
  predicate Fits(f: Frame) { |f.body| <= 250 }

  datatype Encoding = Wire(bytes: seq<byte>) | LengthOutOfRange(length: int) | SequenceOutOfRange(sequence: int)

  function EncodeFrame(msgType: byte, sequence: int, body: seq<byte>): Encoding {
    var length := |body| + HEADER_LEN + 1;
    if !(0 <= length <= 255) then LengthOutOfRange(length)
    else if !(0 <= sequence <= 255) then SequenceOutOfRange(sequence)
    else
      var withoutCrc := [HEADER_START, msgType, length as byte, sequence as byte] + body;
      Wire(withoutCrc + [Crc.Checksum(withoutCrc)])
  }

  function EncodeCommand(cmd: byte, body: seq<byte>, sequence: int): Encoding {
    EncodeFrame(TYPE_COMMAND, sequence, [cmd] + body)
  }

  /** The octets of a frame whose sequence number is already an octet. */
  function Encoded(f: Frame): (r: seq<byte>)
    requires Fits(f)
    ensures |r| == |f.body| + HEADER_LEN + 1
    ensures r[0] == HEADER_START && r[1] == f.msgType && r[2] as int == |r| && r[3] == f.sequence
    ensures r[HEADER_LEN..|r| - 1] == f.body && Crc.Sealed(r)
  {
    var wire := EncodeFrame(f.msgType, f.sequence as int, f.body).bytes;
    assert wire[..|wire| - 1] == [HEADER_START, f.msgType, |wire| as byte, f.sequence] + f.body;
    wire
  }

  /** The octets of a command frame, as the panel expects them. */
  predicate CarriesCommand(octets: seq<byte>, sequence: byte, command: seq<byte>) {
    && |octets| == |command| + 5
    && octets[0] == 0x74 && octets[1] == 0x43 && octets[2] as int == |octets| && octets[3] == sequence
    && octets[4..|octets| - 1] == command && octets[|octets| - 1] == Crc.Checksum(octets[..|octets| - 1])
  }

  lemma CommandsAreCarried(cmd: byte, body: seq<byte>, sequence: byte)
    requires |body| <= 249
    ensures EncodeCommand(cmd, body, sequence as int).Wire?
    ensures CarriesCommand(EncodeCommand(cmd, body, sequence as int).bytes, sequence, [cmd] + body)
  {
    var wire := EncodeCommand(cmd, body, sequence as int).bytes;
    assert wire[..|wire| - 1] == [HEADER_START, TYPE_COMMAND, |wire| as byte, sequence] + ([cmd] + body);
  }

  /** The login frame for the password 1234, number 0. */
  lemma KnownLoginFrame()
    ensures EncodeCommand(1, [0x31, 0x32, 0x33, 0x34], 0) ==
            Wire([0x74, 0x43, 10, 0, 1, 0x31, 0x32, 0x33, 0x34, 0x34])
  {
    Crc.KnownChecksum();
    hide Crc.Checksum;
    assert [1] + [0x31, 0x32, 0x33, 0x34] == [1, 0x31, 0x32, 0x33, 0x34];
    assert [0x74, 0x43, 10, 0] + ([1] + [0x31, 0x32, 0x33, 0x34]) == [0x74, 0x43, 10, 0, 1, 0x31, 0x32, 0x33, 0x34];
  }

  /** A command, a response and an event, told apart by their second octet. */
  lemma KindsOnTheWire(f: Frame)
    requires Fits(f)
    ensures Encoded(f)[1] == 0x43 <==> f.msgType == TYPE_COMMAND
    ensures Encoded(f)[1] == 0x52 <==> f.msgType == TYPE_RESPONSE
    ensures Encoded(f)[1] == 0x4D <==> f.msgType == TYPE_MESSAGE
  {
  }

  datatype MissReason = NotHeader | BadLength | BadCrc | UnknownType

  /** What the front of the receive buffer turns out to be. */
  datatype Leading =
    | Decoded(frame: Frame, length: nat)
    | Marker
    | Miss(reason: MissReason)
    | NeedMore
  {
    function Consumed(): nat {
      match this
      case Decoded(_, n) => n
      case Marker => 3
      case Miss(_) => 1
      case NeedMore => 0
    }
  }

  function InspectLeading(buf: seq<byte>): (r: Leading)
    ensures r.Consumed() <= |buf|
    ensures r.NeedMore? <==> r.Consumed() == 0
  {
    if |buf| >= 3 && buf[..3] == MARKER then Marker
    else if |buf| < HEADER_LEN then NeedMore
    else if buf[0] != HEADER_START then Miss(NotHeader)
    else
      var length := buf[2] as nat;
      if !(HEADER_LEN + 1 <= length <= 255) then Miss(BadLength)
      else if |buf| < length then NeedMore
      else
        var frameBytes := buf[..length];
        if frameBytes[length - 1] != Crc.Checksum(frameBytes[..length - 1]) then Miss(BadCrc)
        else if !KnownType(buf[1]) then Miss(UnknownType)
        else Decoded(Frame(buf[1], buf[3], frameBytes[HEADER_LEN..length - 1]), length)
  }

  /** `(frame, consumed)`, the form the client works with. */
  function TryDecodeFrame(buf: seq<byte>): (Option<Frame>, nat) {
    var leading := InspectLeading(buf);
    (if leading.Decoded? then Some(leading.frame) else None, leading.Consumed())
  }

  // ----- The decoder is the exact inverse of the encoder -----

  lemma DecodedIsEncoded(buf: seq<byte>)
    requires InspectLeading(buf).Decoded?
    ensures var r := InspectLeading(buf);
            KnownType(r.frame.msgType) && Fits(r.frame) && buf[..r.length] == Encoded(r.frame)
  {
    var r := InspectLeading(buf);
    var wire := buf[..r.length];
    var front := wire[..r.length - 1];
    hide Crc.Checksum;
    assert front == [HEADER_START, r.frame.msgType, r.length as byte, r.frame.sequence] + r.frame.body;
    assert wire == front + [wire[r.length - 1]];
  }

  lemma EncodedIsDecoded(f: Frame, rest: seq<byte>)
    requires KnownType(f.msgType) && Fits(f)
    ensures InspectLeading(Encoded(f) + rest) == Decoded(f, |Encoded(f)|)
  {
    hide Crc.Checksum;
    var wire := Encoded(f);
    assert (wire + rest)[..|wire|] == wire;
  }

  /** A frame is reported exactly when the buffer starts with its encoding, and then
      precisely that encoding is consumed. */
  lemma DecodesExactlyItsEncoding(buf: seq<byte>, f: Frame, n: nat)
    ensures InspectLeading(buf) == Decoded(f, n)
            <==> KnownType(f.msgType) && Fits(f) && n == |Encoded(f)| && Encoded(f) <= buf
  {
    if InspectLeading(buf) == Decoded(f, n) {
      DecodedIsEncoded(buf);
    }
    if KnownType(f.msgType) && Fits(f) && n == |Encoded(f)| && Encoded(f) <= buf {
      EncodedIsDecoded(f, buf[n..]);
      assert buf == Encoded(f) + buf[n..];
    }
  }

  /** Once the decoder consumes anything, later bytes cannot change its answer. */
  lemma InspectStable(buf: seq<byte>, more: seq<byte>)
    requires !InspectLeading(buf).NeedMore?
    ensures InspectLeading(buf + more) == InspectLeading(buf)
  {
    hide Crc.Checksum;
    var all := buf + more;
    assert |buf| >= 3 && all[..3] == buf[..3];
    if |buf| >= HEADER_LEN && buf[2] as nat <= |buf| {
      assert all[..buf[2] as nat] == buf[..buf[2] as nat];
    }
  }

  /** The end-of-session marker is seen as soon as its three octets are there, on its own or with
      anything after it, and is never mistaken for the start of a frame. */
  lemma MarkerIsPrompt(buf: seq<byte>, f: Frame, rest: seq<byte>)
    ensures InspectLeading(buf).Marker? <==> [0x2B, 0x2B, 0x2B] <= buf
    ensures Fits(f) ==> !InspectLeading(Encoded(f) + rest).Marker?
  {
    hide Crc.Checksum;
    if MARKER <= buf {
      assert buf[..3] == MARKER;
    }
    if Fits(f) {
      assert (Encoded(f) + rest)[0] == HEADER_START;
      assert (Encoded(f) + rest)[..3][0] == HEADER_START;
    }
  }

  /** Short of the marker, the decoder asks for more exactly until it has a length octet, and then until it
      has as many octets as that says; a fault costs one octet, the marker its three. */
  lemma WaitsIff(buf: seq<byte>)
    ensures var r := InspectLeading(buf);
            && (r.NeedMore? <==> !([0x2B, 0x2B, 0x2B] <= buf)
                                 && (|buf| < 4 || (buf[0] == 0x74 && 5 <= buf[2] as nat && |buf| < buf[2] as nat)))
            && (r.Miss? ==> r.Consumed() == 1) && (r.Marker? ==> r.Consumed() == 3)
  {
    hide Crc.Checksum;
    if |buf| >= 3 {
      assert buf[..3] == [buf[0], buf[1], buf[2]];
    }
  }

  /** A torn frame is never accepted and never faulted: the decoder waits for all of it. */
  lemma TornFrameWaits(f: Frame, k: nat)
    requires Fits(f) && k < |Encoded(f)|
    ensures InspectLeading(Encoded(f)[..k]).NeedMore?
  {
  }

  // ----- Corruption on the wire -----

  /** Corrupt an encoded frame, leaving its length octet alone, and let any bytes follow: the
      decoder still reports a frame exactly when the flipped bits are invisible to the checksum,
      the header octet is intact and the (possibly altered) type octet is a known one. */
  lemma CorruptionAcceptedIff(f: Frame, error: seq<byte>, rest: seq<byte>)
    requires Fits(f) && |error| == |Encoded(f)| && error[2] == 0
    ensures InspectLeading(Crc.Flip(Encoded(f), error) + rest).Decoded?
            <==> && Crc.Register(0, error) == 0
                 && error[0] == 0
                 && KnownType(Crc.Flip(Encoded(f), error)[1])
  {
    var wire := Encoded(f);
    var bad := Crc.Flip(wire, error);
    Crc.UndetectedIffErrorClears(wire, error);
    Crc.FlipKeepsIffZero(wire, error, 2);
    Crc.FlipKeepsIffZero(wire, error, 0);
    hide Crc.Flip, Crc.Register, Encoded, InspectLeading;
    WholeFrameInspected(bad, rest);
  }

  /** What the decoder makes of a buffer that holds as many octets as its length octet says. */
  lemma WholeFrameInspected(wire: seq<byte>, rest: seq<byte>)
    requires |wire| >= HEADER_LEN + 1 && wire[2] as nat == |wire|
    ensures var r := InspectLeading(wire + rest);
            && !r.NeedMore?
            && (r.Decoded? <==> wire[0] == HEADER_START && KnownType(wire[1]) && Crc.Sealed(wire))
  {
    hide Crc.Checksum;
    var buf := wire + rest;
    assert buf[..|wire|] == wire;
    assert buf[0] == wire[0] && buf[1] == wire[1] && buf[2] == wire[2];
  }

  /** Any odd number of flipped bits ends in a fault. */
  lemma OddCorruptionFaults(f: Frame, error: seq<byte>, rest: seq<byte>)
    requires Fits(f) && |error| == |Encoded(f)| && error[2] == 0
    requires Crc.TotalWeight(error) % 2 == 1
    ensures var r := InspectLeading(Crc.Flip(Encoded(f), error) + rest); r.Miss? || r.Marker?
  {
    Crc.OddErrorNeverClears(error);
    CorruptedFrameFaults(f, error, rest);
  }

  /** So does any non-empty set of flipped bits within eight consecutive ones. */
  lemma BurstCorruptionFaults(f: Frame, error: seq<byte>, rest: seq<byte>, p: nat)
    requires Fits(f) && |error| == |Encoded(f)| && error[2] == 0
    requires Crc.Burst(error, p)
    ensures var r := InspectLeading(Crc.Flip(Encoded(f), error) + rest); r.Miss? || r.Marker?
  {
    Crc.BurstNeverClears(error, p);
    CorruptedFrameFaults(f, error, rest);
  }

  /** Two flipped bits are caught unless they are a multiple of 127 bits apart, so always in the
      frames that matter most: an arm, a disarm, an AREA push and any other of at most 15 octets. */
  lemma DoubleCorruptionFaults(f: Frame, j: nat, k: nat, rest: seq<byte>)
    requires Fits(f) && j < k < 8 * |Encoded(f)|
    requires j / 8 != 2 && k / 8 != 2
    requires |Encoded(f)| <= 15 || (k - j) % Crc.PERIOD != 0
    ensures var r := InspectLeading(Crc.Flip(Encoded(f), Crc.Double(|Encoded(f)|, j, k)) + rest); r.Miss? || r.Marker?
  {
    hide Encoded, InspectLeading, Crc.Register, Crc.Flip, Crc.OneBit;
    var n := |Encoded(f)|;
    Crc.DoubleErrorClearsIff(n, j, k);
    Crc.FlipKeepsIffZero(Crc.Single(n, j), Crc.Single(n, k), 2);
    CorruptedFrameFaults(f, Crc.Double(n, j, k), rest);
  }

  /** Never silently waiting either: the length octet is intact and all the bytes are there. */
  lemma CorruptedFrameFaults(f: Frame, error: seq<byte>, rest: seq<byte>)
    requires Fits(f) && |error| == |Encoded(f)| && error[2] == 0
    requires Crc.Register(0, error) != 0
    ensures var r := InspectLeading(Crc.Flip(Encoded(f), error) + rest); r.Miss? || r.Marker?
  {
    CorruptionAcceptedIff(f, error, rest);
    var wire := Encoded(f);
    Crc.FlipKeepsIffZero(wire, error, 2);
    hide Crc.Flip, Crc.Register, Encoded, InspectLeading;
    WholeFrameInspected(Crc.Flip(wire, error), rest);
  }
}
