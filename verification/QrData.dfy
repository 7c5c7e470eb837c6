/** Byte-mode bit packing: mode, length, payload, terminator and padding in 108 data bytes.

    DataCodewords grows the bit list and packs it, as the encoder does.  ReadPayload is a
    reader's view of the same layout, and the round trip between the two is proved for
    every payload the encoder accepts.
 */
module QrData {
  import opened Wrappers

  const DATA_CODEWORDS := 108
  const MAX_PAYLOAD := 100

  // ----- Bits of bytes -------------------------------------------------------------------

  /** The bits of a byte, most significant first. */
  function ByteBits(b: bv8): (bits: seq<bool>)
    ensures |bits| == 8
  {
    [(b >> 7) & 1 == 1, (b >> 6) & 1 == 1, (b >> 5) & 1 == 1, (b >> 4) & 1 == 1,
     (b >> 3) & 1 == 1, (b >> 2) & 1 == 1, (b >> 1) & 1 == 1, b & 1 == 1]
  }

  function Weighted(bit: bool, weight: bv8): bv8 { if bit then weight else 0 }

  function ByteOf(bits: seq<bool>): bv8
    requires |bits| == 8
  {
    Weighted(bits[0], 0x80) + Weighted(bits[1], 0x40) + Weighted(bits[2], 0x20) + Weighted(bits[3], 0x10)
    + Weighted(bits[4], 0x08) + Weighted(bits[5], 0x04) + Weighted(bits[6], 0x02) + Weighted(bits[7], 0x01)
  }

  function Bits(words: seq<bv8>): (bits: seq<bool>)
    ensures |bits| == 8 * |words|
  {
    if words == [] then [] else ByteBits(words[0]) + Bits(words[1..])
  }

  function Pack(bits: seq<bool>): (words: seq<bv8>)
    requires |bits| % 8 == 0
    ensures |words| == |bits| / 8
  {
    if bits == [] then [] else [ByteOf(bits[..8])] + Pack(bits[8..])
  }

  lemma {:induction false} ByteOfByteBits(b: bv8)
    ensures ByteOf(ByteBits(b)) == b
  {
  }

  lemma {:induction false} ByteBitsOfByteOf(bits: seq<bool>)
    requires |bits| == 8
    ensures ByteBits(ByteOf(bits)) == bits
  {
  }

  lemma {:induction false} BitsOfConcat(a: seq<bv8>, b: seq<bv8>)
    ensures Bits(a + b) == Bits(a) + Bits(b)
  {
    if a == [] {
      assert a + b == b;
    } else {
      assert (a + b)[1..] == a[1..] + b;
      BitsOfConcat(a[1..], b);
    }
  }

  lemma {:induction false} BitsOfPack(bits: seq<bool>)
    requires |bits| % 8 == 0
    ensures Bits(Pack(bits)) == bits
  {
    if bits != [] {
      ByteBitsOfByteOf(bits[..8]);
      BitsOfPack(bits[8..]);
      assert Pack(bits)[1..] == Pack(bits[8..]);
      assert bits == bits[..8] + bits[8..];
    }
  }

  lemma {:induction false} PackOfBits(words: seq<bv8>)
    ensures Pack(Bits(words)) == words
  {
    if words != [] {
      ByteOfByteBits(words[0]);
      PackOfBits(words[1..]);
      assert Bits(words)[..8] == ByteBits(words[0]);
      assert Bits(words)[8..] == Bits(words[1..]);
    }
  }

  // ----- The length field ----------------------------------------------------------------

  function Pow2(k: nat): nat { if k == 0 then 1 else 2 * Pow2(k - 1) }

  /** The k low bits of a number, most significant first. */
  function NumberBits(n: nat, k: nat): (bits: seq<bool>)
    ensures |bits| == k
  {
    if k == 0 then [] else NumberBits(n / 2, k - 1) + [n % 2 == 1]
  }

  function NumberOf(bits: seq<bool>): nat {
    if bits == [] then 0
    else 2 * NumberOf(bits[..|bits| - 1]) + if bits[|bits| - 1] then 1 else 0
  }

  lemma {:induction false} NumberOfNumberBits(n: nat, k: nat)
    requires n < Pow2(k)
    ensures NumberOf(NumberBits(n, k)) == n
  {
    if k > 0 {
      var bits := NumberBits(n, k);
      assert bits[..k - 1] == NumberBits(n / 2, k - 1);
      NumberOfNumberBits(n / 2, k - 1);
    }
  }

  function LengthBits(n: nat): (bits: seq<bool>)
    ensures |bits| == 8
  {
    NumberBits(n, 8)
  }

  // ----- The encoder ---------------------------------------------------------------------

  const BYTE_MODE := [false, true, false, false]

  function Min(a: int, b: int): int { if a < b then a else b }

  function Falses(n: nat): seq<bool> { seq(n, k => false) }

  /** Mode indicator, length, payload and terminator. */
  function Message(payload: seq<bv8>): (bits: seq<bool>)
    ensures |bits| == 8 * (|payload| + 2)
  {
    BYTE_MODE + LengthBits(|payload|) + Bits(payload) + Falses(4)
  }

  /** The pad byte at a distance from the end of the message. */
  function PadByte(k: nat): bv8 { if k % 2 == 0 then 0xEC else 0x11 }

  /** What section 7.4 of ISO/IEC 18004 asks of the 108 data bytes of a payload. */
  ghost predicate IsDataBlock(words: seq<bv8>, payload: seq<bv8>) {
    var n := |payload|;
    && n <= 100
    && |words| == 108
    && Bits(words[..n + 2]) == Message(payload)
    && forall k | n + 2 <= k < 108 :: words[k] == if (k - n) % 2 == 0 then 0xEC else 0x11
  }

  function Weight(bit: bool, weight: nat): nat { if bit then weight else 0 }

  lemma {:induction false} NumberByWeight(bits: seq<bool>)
    requires |bits| > 0
    ensures NumberOf(bits) == 2 * NumberOf(bits[..|bits| - 1]) + Weight(bits[|bits| - 1], 1)
  {
  }

  lemma {:induction false} LengthByWeight(bits: seq<bool>)
    requires |bits| == 8
    ensures NumberOf(bits) == Weight(bits[0], 128) + Weight(bits[1], 64) + Weight(bits[2], 32) + Weight(bits[3], 16)
                              + Weight(bits[4], 8) + Weight(bits[5], 4) + Weight(bits[6], 2) + Weight(bits[7], 1)
  {
    hide NumberOf;
    NumberByWeight(bits);
    NumberByWeight(bits[..7]);
    NumberByWeight(bits[..6]);
    NumberByWeight(bits[..5]);
    NumberByWeight(bits[..4]);
    NumberByWeight(bits[..3]);
    NumberByWeight(bits[..2]);
    NumberByWeight(bits[..1]);
    assert bits[..7][..6] == bits[..6] && bits[..6][..5] == bits[..5] && bits[..5][..4] == bits[..4];
    assert bits[..4][..3] == bits[..3] && bits[..3][..2] == bits[..2] && bits[..2][..1] == bits[..1];
    NumberOfNothing(bits[..1][..0]);
  }

  lemma {:induction false} NumberOfNothing(bits: seq<bool>)
    requires bits == []
    ensures NumberOf(bits) == 0
  {
  }

  /** The message, bit by bit: mode 0100, the length in eight bits, the payload, four zeros. */
  lemma {:induction false} MessageLayout(payload: seq<bv8>)
    requires |payload| <= 255
    ensures var bits := Message(payload); var n := 8 * |payload|;
            && |bits| == 16 + n && bits[..4] == [false, true, false, false]
            && Weight(bits[4], 128) + Weight(bits[5], 64) + Weight(bits[6], 32) + Weight(bits[7], 16)
               + Weight(bits[8], 8) + Weight(bits[9], 4) + Weight(bits[10], 2) + Weight(bits[11], 1) == |payload|
            && bits[12..12 + n] == Bits(payload)
            && bits[12 + n..] == [false, false, false, false]
  {
    var bits := Message(payload);
    assert bits[4..12] == LengthBits(|payload|);
    assert Pow2(8) == 256;
    NumberOfNumberBits(|payload|, 8);
    LengthByWeight(bits[4..12]);
  }

  method PayloadBits(payload: seq<bv8>) returns (bits: seq<bool>)
    ensures bits == Bits(payload)
  {
    bits := [];
    for i := 0 to |payload|
      invariant bits == Bits(payload[..i])
    {
      BitsOfConcat(payload[..i], [payload[i]]);
      assert payload[..i] + [payload[i]] == payload[..i + 1];
      assert Bits([payload[i]]) == ByteBits(payload[i]) + Bits([]);
      bits := bits + ByteBits(payload[i]);
    }
    assert payload[..|payload|] == payload;
  }

  /** The bit list of an accepted payload, already a whole number of bytes long. */
  method MessageBits(payload: seq<bv8>) returns (bits: seq<bool>)
    requires |payload| <= MAX_PAYLOAD
    ensures bits == Message(payload)
  {
    var body := PayloadBits(payload);
    bits := BYTE_MODE + LengthBits(|payload|) + body;
    var capacity := DATA_CODEWORDS * 8;
    bits := bits + Falses(Min(4, capacity - |bits|));
    assert |bits| == 8 * (|payload| + 2);
    bits := bits + Falses((-|bits|) % 8);
  }

  method PadWords(message: seq<bv8>) returns (words: seq<bv8>)
    requires |message| <= DATA_CODEWORDS
    ensures |words| == DATA_CODEWORDS && words[..|message|] == message
    ensures forall k | |message| <= k < DATA_CODEWORDS :: words[k] == PadByte(k - |message|)
  {
    words := message;
    var padIndex := 0;
    while |words| < DATA_CODEWORDS
      invariant |message| <= |words| == |message| + padIndex <= DATA_CODEWORDS
      invariant words[..|message|] == message
      invariant forall k | |message| <= k < |words| :: words[k] == PadByte(k - |message|)
    {
      words := words + [PadByte(padIndex)];
      padIndex := padIndex + 1;
    }
  }

  /** The data block of a payload; None stands for the raised "too long" error. */
  method DataCodewords(payload: seq<bv8>) returns (r: Option<seq<bv8>>)
    ensures r.None? <==> |payload| > 100
    ensures r.Some? ==> IsDataBlock(r.value, payload)
  {
    hide Bits, Pack, IsDataBlock;
    if |payload| > MAX_PAYLOAD {
      return None;
    }
    var bits := MessageBits(payload);
    var message := Pack(bits);
    var words := PadWords(message);
    PaddedIsDataBlock(payload, message, words);
    return Some(words);
  }

  lemma {:induction false} PaddedIsDataBlock(payload: seq<bv8>, message: seq<bv8>, words: seq<bv8>)
    requires |payload| <= MAX_PAYLOAD && message == Pack(Message(payload))
    requires |words| == DATA_CODEWORDS && words[..|message|] == message
    requires forall k | |message| <= k < DATA_CODEWORDS :: words[k] == PadByte(k - |message|)
    ensures IsDataBlock(words, payload)
  {
    hide Message, Pack, Bits;
    BitsOfPack(Message(payload));
    assert |message| == |payload| + 2;
  }

  // ----- The reader ------------------------------------------------------------------------

  /** Reads a byte-mode message: mode indicator, eight-bit length, then that many bytes. */
  function ReadPayload(words: seq<bv8>): Option<seq<bv8>> {
    var bits := Bits(words);
    if |bits| < 12 || bits[..4] != [false, true, false, false] then None
    else
      var length := NumberOf(bits[4..12]);
      if 12 + 8 * length > |bits| then None
      else Some(PackBytes(bits[12..], length))
  }

  /** The first bytes of a bit list. */
  function PackBytes(bits: seq<bool>, n: nat): seq<bv8>
    requires 8 * n <= |bits|
  {
    var body := bits[..8 * n];
    assert |body| % 8 == 0;
    Pack(body)
  }

  /** Reading any block that starts with the message of a payload gives the payload. */
  lemma {:induction false} ReadMessage(bits: seq<bool>, payload: seq<bv8>, rest: seq<bool>)
    requires |payload| < 256 && bits == Message(payload) + rest
    ensures bits[..4] == BYTE_MODE
    ensures NumberOf(bits[4..12]) == |payload|
    ensures PackBytes(bits[12..], |payload|) == payload
  {
    var n := |payload|;
    assert bits[4..12] == LengthBits(n);
    assert Pow2(8) == 256;
    NumberOfNumberBits(n, 8);
    assert bits[12..][..8 * n] == Bits(payload);
    PackOfBits(payload);
  }

  lemma {:induction false} PayloadRoundTrip(words: seq<bv8>, payload: seq<bv8>)
    requires IsDataBlock(words, payload)
    ensures ReadPayload(words) == Some(payload)
  {
    var n := |payload|;
    BitsOfConcat(words[..n + 2], words[n + 2..]);
    assert words == words[..n + 2] + words[n + 2..];
    ReadMessage(Bits(words), payload, Bits(words[n + 2..]));
  }

  /** The layout leaves no freedom: a payload has one data block. */
  lemma {:induction false} DataBlockIsUnique(words: seq<bv8>, other: seq<bv8>, payload: seq<bv8>)
    requires IsDataBlock(words, payload) && IsDataBlock(other, payload)
    ensures words == other
  {
    var n := |payload|;
    PackOfBits(words[..n + 2]);
    PackOfBits(other[..n + 2]);
    forall k | 0 <= k < DATA_CODEWORDS
      ensures words[k] == other[k]
    {
      if k < n + 2 {
        assert words[k] == words[..n + 2][k] && other[k] == other[..n + 2][k];
      }
    }
  }
}
