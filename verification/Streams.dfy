/** What a byte stream cuts into, whatever reads it arrives in.
    `Cut` is the reference: it looks at the whole stream at once. */
module Streams {
  import opened Bytes
  import opened Frames

  /** One consumption from the front of the receive buffer. */
  datatype Item =
    | Received(frame: Frame)
    | HangUp
    | Noise(octet: byte, reason: MissReason)

  function ItemOf(buf: seq<byte>): Item
    requires !InspectLeading(buf).NeedMore?
  {
    match InspectLeading(buf)
    case Decoded(frame, _) => Received(frame)
    case Marker => HangUp
    case Miss(reason) => Noise(buf[0], reason)
  }

  function Cut(s: seq<byte>): (r: (seq<Item>, seq<byte>))
    decreases |s|
  {
    if InspectLeading(s).NeedMore? then ([], s)
    else
      var (items, rest) := Cut(s[InspectLeading(s).Consumed()..]);
      ([ItemOf(s)] + items, rest)
  }

  /** Cutting is a left-to-right pass: what is left over waits for what comes next. */
  lemma {:induction false} CutAppend(a: seq<byte>, b: seq<byte>)
    ensures var (items, rest) := Cut(a);
            Cut(a + b) == (items + Cut(rest + b).0, Cut(rest + b).1)
    decreases |a|
  {
    hide InspectLeading;
    if InspectLeading(a).NeedMore? {
      assert [] + Cut(a + b).0 == Cut(a + b).0;
    } else {
      InspectStable(a, b);
      var n := InspectLeading(a).Consumed();
      var tail := a[n..];
      assert (a + b)[n..] == tail + b;
      assert ItemOf(a + b) == ItemOf(a) by { assert (a + b)[0] == a[0]; }
      CutAppend(tail, b);
      var (items, rest) := Cut(tail);
      assert [ItemOf(a)] + (items + Cut(rest + b).0) == ([ItemOf(a)] + items) + Cut(rest + b).0;
    }
  }

  lemma {:induction false} CutLeavesNothingReadable(s: seq<byte>)
    ensures InspectLeading(Cut(s).1).NeedMore?
    decreases |s|
  {
    if !InspectLeading(s).NeedMore? {
      CutLeavesNothingReadable(s[InspectLeading(s).Consumed()..]);
    }
  }

  /** Feed reads one at a time, keeping only the unread tail between them. */
  function FeedReads(pending: seq<byte>, chunks: seq<seq<byte>>): (seq<Item>, seq<byte>)
    decreases |chunks|
  {
    if chunks == [] then ([], pending)
    else
      var (items, rest) := Cut(pending + chunks[0]);
      var (more, last) := FeedReads(rest, chunks[1..]);
      (items + more, last)
  }

  /** However the network splits a stream into reads, the same items come out. */
  lemma {:induction false} ChunkingIndependence(pending: seq<byte>, chunks: seq<seq<byte>>)
    requires InspectLeading(pending).NeedMore?
    ensures FeedReads(pending, chunks) == Cut(pending + Concat(chunks))
    decreases |chunks|
  {
    hide InspectLeading, ItemOf;
    if chunks == [] {
      assert pending + [] == pending;
    } else {
      var joined := pending + chunks[0];
      var rest := Cut(joined).1;
      CutLeavesNothingReadable(joined);
      ChunkingIndependence(rest, chunks[1..]);
      assert pending + Concat(chunks) == joined + Concat(chunks[1..]);
      CutAppend(joined, Concat(chunks[1..]));
    }
  }

  // ----- Bytes are conserved, and encoded frames come back -----

  /** The bytes one item used up. */
  function ItemBytes(item: Item): seq<byte>
    requires item.Received? ==> Fits(item.frame)
  {
    match item
    case Received(frame) => Encoded(frame)
    case HangUp => MARKER
    case Noise(octet, _) => [octet]
  }

  predicate Readable(items: seq<Item>) {
    forall i :: 0 <= i < |items| && items[i].Received? ==>
      Fits(items[i].frame) && KnownType(items[i].frame.msgType)
  }

  function AllBytes(items: seq<Item>): seq<byte>
    requires Readable(items)
  {
    if items == [] then [] else ItemBytes(items[0]) + AllBytes(items[1..])
  }

  lemma ItemTakesFront(s: seq<byte>)
    requires !InspectLeading(s).NeedMore?
    ensures Readable([ItemOf(s)])
    ensures ItemBytes(ItemOf(s)) == s[..InspectLeading(s).Consumed()]
  {
    hide Encoded;
    if InspectLeading(s).Decoded? {
      DecodedIsEncoded(s);
    }
  }

  lemma AllBytesCons(item: Item, items: seq<Item>)
    requires Readable([item]) && Readable(items)
    ensures Readable([item] + items)
    ensures [item][0] == item && AllBytes([item] + items) == ItemBytes(item) + AllBytes(items)
  {
    assert [item][0] == item;
    assert ([item] + items)[1..] == items;
  }

  lemma NoBytes()
    ensures Readable([]) && AllBytes([]) == []
  {
  }

  lemma Regroup(a: seq<byte>, b: seq<byte>, c: seq<byte>)
    ensures (a + b) + c == a + (b + c)
  {
  }

  /** Nothing is skipped, repeated or altered: the items and the tail are the stream. */
  lemma {:induction false} CutConservesBytes(s: seq<byte>)
    ensures var (items, rest) := Cut(s); Readable(items) && AllBytes(items) + rest == s
    decreases |s|
  {
    hide InspectLeading, ItemOf, ItemBytes, AllBytes, Readable;
    if InspectLeading(s).NeedMore? {
      NoBytes();
      assert [] + s == s;
    } else {
      var n := InspectLeading(s).Consumed();
      CutConservesBytes(s[n..]);
      ItemTakesFront(s);
      var (items, rest) := Cut(s[n..]);
      AllBytesCons(ItemOf(s), items);
      Regroup(s[..n], AllBytes(items), rest);
      assert s == s[..n] + s[n..];
    }
  }

  function ReceivedAll(frames: seq<Frame>): seq<Item> {
    seq(|frames|, i requires 0 <= i < |frames| => Received(frames[i]))
  }

  predicate Sendable(frames: seq<Frame>) {
    forall i :: 0 <= i < |frames| ==> Fits(frames[i]) && KnownType(frames[i].msgType)
  }

  function EncodeAll(frames: seq<Frame>): seq<byte>
    requires Sendable(frames)
  {
    if frames == [] then [] else Encoded(frames[0]) + EncodeAll(frames[1..])
  }

  /** Any frames sent back to back come out as those frames, with nothing left over. */
  lemma {:induction false} StreamRoundTrip(frames: seq<Frame>)
    requires Sendable(frames)
    ensures Cut(EncodeAll(frames)) == (ReceivedAll(frames), [])
    decreases |frames|
  {
    if frames != [] {
      var first, rest := frames[0], EncodeAll(frames[1..]);
      EncodedIsDecoded(first, rest);
      assert (Encoded(first) + rest)[|Encoded(first)|..] == rest;
      StreamRoundTrip(frames[1..]);
      assert ReceivedAll(frames) == [Received(first)] + ReceivedAll(frames[1..]);
    }
  }

  lemma {:induction false} BytesOfReceived(frames: seq<Frame>)
    requires Readable(ReceivedAll(frames))
    ensures Sendable(frames) && AllBytes(ReceivedAll(frames)) == EncodeAll(frames)
    decreases |frames|
  {
    hide Encoded, KnownType, Fits;
    if frames != [] {
      var rest := ReceivedAll(frames[1..]);
      assert ReceivedAll(frames) == [Received(frames[0])] + rest;
      assert forall i :: 0 <= i < |rest| ==> rest[i] == ReceivedAll(frames)[i + 1];
      assert ReceivedAll(frames)[0] == Received(frames[0]) && ReceivedAll(frames)[1..] == rest;
      BytesOfReceived(frames[1..]);
    }
  }

  /** A stream cuts into frames alone, with nothing left, exactly when it is their encodings. */
  lemma CutsCleanlyIff(s: seq<byte>, frames: seq<Frame>)
    ensures Cut(s) == (ReceivedAll(frames), []) <==> Sendable(frames) && s == EncodeAll(frames)
  {
    hide Cut, AllBytes, EncodeAll;
    if Cut(s) == (ReceivedAll(frames), []) {
      CutConservesBytes(s);
      BytesOfReceived(frames);
      assert AllBytes(ReceivedAll(frames)) + [] == AllBytes(ReceivedAll(frames));
    }
    if Sendable(frames) && s == EncodeAll(frames) {
      StreamRoundTrip(frames);
    }
  }

  /** Encoding is uniquely decodable. */
  lemma EncodeAllIsInjective(a: seq<Frame>, b: seq<Frame>)
    requires Sendable(a) && Sendable(b) && EncodeAll(a) == EncodeAll(b)
    ensures a == b
  {
    StreamRoundTrip(a);
    StreamRoundTrip(b);
    assert |ReceivedAll(a)| == |a| && |ReceivedAll(b)| == |b|;
    forall i | 0 <= i < |a| ensures a[i] == b[i] {
      assert ReceivedAll(a)[i] == Received(a[i]) && ReceivedAll(b)[i] == Received(b[i]);
    }
  }

  /** The unsolicited frames among the items, in wire order. */
  function Messages(items: seq<Item>): seq<Frame> {
    if items == [] then []
    else if items[0].Received? && items[0].frame.msgType == TYPE_MESSAGE then
      [items[0].frame] + Messages(items[1..])
    else Messages(items[1..])
  }

  lemma {:induction false} MessagesAppend(a: seq<Item>, b: seq<Item>)
    ensures Messages(a + b) == Messages(a) + Messages(b)
    decreases |a|
  {
    if a == [] {
      assert a + b == b;
    } else {
      assert (a + b)[1..] == a[1..] + b;
      MessagesAppend(a[1..], b);
    }
  }
}
