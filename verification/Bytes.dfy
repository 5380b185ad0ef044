/** Octets and the small containers the other modules share. */
module Bytes {

  newtype byte = x: int | 0 <= x < 256

  datatype Option<+T> = None | Some(value: T)

  /** The eight bits of an octet, most significant first. */
  function Bits(b: byte): bv8 { b as bv8 }

  function Octet(v: bv8): byte { v as byte }

  lemma ZeroOctet()
    ensures Bits(0) == 0 && Octet(0) == 0
  {
  }

  lemma BitsOfOctet(v: bv8)
    ensures Bits(Octet(v)) == v
  {
  }

  lemma NextOctet(v: bv8)
    requires v != 255
    ensures (v + 1) as int == v as int + 1
  {
  }

  lemma {:induction false} EveryOctetHasBits(n: nat) returns (v: bv8)
    requires n < 256
    ensures v as int == n
  {
    if n == 0 {
      v := 0;
    } else {
      var w := EveryOctetHasBits(n - 1);
      NextOctet(w);
      v := w + 1;
    }
  }

  lemma OctetOfBits(b: byte)
    ensures Octet(Bits(b)) == b
  {
    var v := EveryOctetHasBits(b as nat);
    assert Octet(v) == b;
    hide Bits, Octet;
    BitsOfOctet(v);
  }

  function Concat(chunks: seq<seq<byte>>): seq<byte> {
    if chunks == [] then [] else chunks[0] + Concat(chunks[1..])
  }

  lemma ConcatAppend(chunks: seq<seq<byte>>, last: seq<byte>)
    ensures Concat(chunks + [last]) == Concat(chunks) + last
  {
    if chunks == [] {
      assert Concat([last]) == last + Concat([]);
    } else {
      assert (chunks + [last])[1..] == chunks[1..] + [last];
      ConcatAppend(chunks[1..], last);
    }
  }
}
