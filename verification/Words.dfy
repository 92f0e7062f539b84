/** Machine words and their bytes; the host is little-endian. */
module Words {

  function Reversed(s: seq<bv8>): (r: seq<bv8>)
    ensures |r| == |s|
  {
    seq(|s|, i requires 0 <= i < |s| => s[|s| - 1 - i])
  }

  // ----- 32 bits -----

  function Join32(b0: bv8, b1: bv8, b2: bv8, b3: bv8): bv32 {
    (b0 as bv32) | ((b1 as bv32) << 8) | ((b2 as bv32) << 16) | ((b3 as bv32) << 24)
  }

  /** The bytes of a word as they lie in memory, lowest first. */
  function Bytes32(w: bv32): (s: seq<bv8>)
    ensures |s| == 4
  {
    [(w & 0xFF) as bv8, ((w >> 8) & 0xFF) as bv8, ((w >> 16) & 0xFF) as bv8, ((w >> 24) & 0xFF) as bv8]
  }

  function Word32(s: seq<bv8>): bv32
    requires |s| == 4
  {
    Join32(s[0], s[1], s[2], s[3])
  }

  /** A word and its bytes in memory: byte k holds the bits from 8k on. */
  lemma WordBytes(s: seq<bv8>)
    requires |s| == 4
    ensures var w := Word32(s);
      && w & 0xFF == s[0] as bv32 && (w >> 8) & 0xFF == s[1] as bv32
      && (w >> 16) & 0xFF == s[2] as bv32 && w >> 24 == s[3] as bv32
  {
    JoinedBytes(s[0], s[1], s[2], s[3]);
  }

  lemma JoinedBytes(b0: bv8, b1: bv8, b2: bv8, b3: bv8)
    ensures var w := Join32(b0, b1, b2, b3);
      && w & 0xFF == b0 as bv32 && (w >> 8) & 0xFF == b1 as bv32
      && (w >> 16) & 0xFF == b2 as bv32 && w >> 24 == b3 as bv32
  {
  }

  lemma JoinSplit32(b0: bv8, b1: bv8, b2: bv8, b3: bv8)
    ensures Bytes32(Join32(b0, b1, b2, b3)) == [b0, b1, b2, b3]
  {
  }

  lemma BytesOfWord32(s: seq<bv8>)
    requires |s| == 4
    ensures Bytes32(Word32(s)) == s
  {
    JoinSplit32(s[0], s[1], s[2], s[3]);
    hide Join32, Bytes32;
  }

  /** The word whose bytes, highest first, are s. */
  function BigWord32(s: seq<bv8>): bv32
    requires |s| == 4
  {
    Word32(Reversed(s))
  }

  function Swapped32(w: bv32): bv32 {
    Word32(Reversed(Bytes32(w)))
  }

  /** Reading a big-endian word by reading a native one and swapping it. */
  lemma SwapReads(s: seq<bv8>)
    requires |s| == 4
    ensures Swapped32(Word32(s)) == BigWord32(s)
  {
    BytesOfWord32(s);
  }

  /** Storing a swapped word leaves the bytes of the word in memory highest first. */
  lemma SwapStores(w: bv32)
    ensures Bytes32(Swapped32(w)) == Reversed(Bytes32(w))
  {
    BytesOfWord32(Reversed(Bytes32(w)));
  }

  /** swap_endian32 */
  method SwapEndian32(val: bv32) returns (swapped: bv32)
    ensures swapped == Swapped32(val)
  {
    hide Bytes32, Word32;
    var bytes := Bytes32(val);
    var res := new bv8[4];
    for i := 0 to 4
      invariant forall k :: 0 <= k < i ==> res[k] == bytes[3 - k]
    {
      res[i] := bytes[3 - i];
    }
    assert res[..] == Reversed(bytes);
    swapped := Word32(res[..]);
  }

  function ShiftLeft(x: bv32, n: nat): bv32
    requires n <= 32
  {
    x << n
  }

  function ShiftRight(x: bv32, n: nat): bv32
    requires n <= 32
  {
    x >> n
  }

  function Or(x: bv32, y: bv32): bv32 {
    x | y
  }

  lemma OrCommutes(x: bv32, y: bv32)
    ensures Or(x, y) == Or(y, x)
  {
  }

  /** left_rotate */
  function LeftRotate(val: bv32, amount: nat): bv32 {
    var rot := amount % 32;
    Or(ShiftRight(val, 32 - rot), ShiftLeft(val, rot))
  }

  // ----- 64 bits -----

  function Join64(b0: bv8, b1: bv8, b2: bv8, b3: bv8, b4: bv8, b5: bv8, b6: bv8, b7: bv8): bv64 {
    (b0 as bv64) | ((b1 as bv64) << 8) | ((b2 as bv64) << 16) | ((b3 as bv64) << 24)
    | ((b4 as bv64) << 32) | ((b5 as bv64) << 40) | ((b6 as bv64) << 48) | ((b7 as bv64) << 56)
  }

  function Bytes64(w: bv64): (s: seq<bv8>)
    ensures |s| == 8
  {
    [(w & 0xFF) as bv8, ((w >> 8) & 0xFF) as bv8, ((w >> 16) & 0xFF) as bv8, ((w >> 24) & 0xFF) as bv8,
     ((w >> 32) & 0xFF) as bv8, ((w >> 40) & 0xFF) as bv8, ((w >> 48) & 0xFF) as bv8, ((w >> 56) & 0xFF) as bv8]
  }

  function Word64(s: seq<bv8>): bv64
    requires |s| == 8
  {
    Join64(s[0], s[1], s[2], s[3], s[4], s[5], s[6], s[7])
  }

  lemma LongBytes(w: bv64)
    ensures var s := Bytes64(w);
      && s[0] as bv64 == w & 0xFF && s[1] as bv64 == (w >> 8) & 0xFF
      && s[2] as bv64 == (w >> 16) & 0xFF && s[3] as bv64 == (w >> 24) & 0xFF
      && s[4] as bv64 == (w >> 32) & 0xFF && s[5] as bv64 == (w >> 40) & 0xFF
      && s[6] as bv64 == (w >> 48) & 0xFF && s[7] as bv64 == w >> 56
  {
  }

  lemma JoinSplit64(b0: bv8, b1: bv8, b2: bv8, b3: bv8, b4: bv8, b5: bv8, b6: bv8, b7: bv8)
    ensures Bytes64(Join64(b0, b1, b2, b3, b4, b5, b6, b7)) == [b0, b1, b2, b3, b4, b5, b6, b7]
  {
  }

  lemma BytesOfWord64(s: seq<bv8>)
    requires |s| == 8
    ensures Bytes64(Word64(s)) == s
  {
    JoinSplit64(s[0], s[1], s[2], s[3], s[4], s[5], s[6], s[7]);
    hide Join64, Bytes64;
  }

  /** swap_endian64 */
  method SwapEndian64(val: bv64) returns (swapped: bv64)
    ensures Bytes64(swapped) == Reversed(Bytes64(val))
  {
    hide Bytes64, Word64;
    var bytes := Bytes64(val);
    var res := new bv8[8];
    for i := 0 to 8
      invariant forall k :: 0 <= k < i ==> res[k] == bytes[7 - k]
    {
      res[i] := bytes[7 - i];
    }
    assert res[..] == Reversed(bytes);
    BytesOfWord64(res[..]);
    swapped := Word64(res[..]);
  }
}
