/** MD5 as in sections 3.1 to 3.4 of RFC 1321 and SHA-1 as in sections 4, 5 and 6.1 of RFC 3174. */
module DigestSpec {
  import opened Words

  // ----- padding, sections 3.1 and 3.2 of RFC 1321 and section 4 of RFC 3174 -----

  function Zeros(n: nat): (s: seq<bv8>)
    ensures |s| == n && forall i :: 0 <= i < n ==> s[i] == 0
  {
    seq(n, _ => 0)
  }

  /** How many zero bytes bring the text and its 0x80 to eight bytes below a multiple of 64. */
  function ZeroCount(len: nat): (n: nat)
    ensures n < 64 && (len + 1 + n) % 64 == 56
  {
    if len % 64 < 56 then 55 - len % 64 else 119 - len % 64
  }

  lemma PadLength(len: nat)
    ensures (len + 1 + ZeroCount(len) + 8) % 64 == 0
  {
  }

  /** The number of bits, of which only the low 64 bits are kept. */
  function BitCount(len: nat): bv64 {
    ((len % 0x1_0000_0000_0000_0000) as bv64) << 3
  }

  function LengthBytes(len: nat, be: bool): (s: seq<bv8>)
    ensures |s| == 8
  {
    if be then Reversed(Bytes64(BitCount(len))) else Bytes64(BitCount(len))
  }

  function Pad(m: seq<bv8>, be: bool): (p: seq<bv8>)
    ensures |p| % 64 == 0
  {
    PadLength(|m|);
    m + [0x80] + Zeros(ZeroCount(|m|)) + LengthBytes(|m|, be)
  }

  function Rotl(x: bv32, n: nat): bv32
    requires 0 < n < 32
  {
    Or(ShiftLeft(x, n), ShiftRight(x, 32 - n))
  }

  /** What the names of the sums stand for, modulo two to the 32nd, and of the exclusive-or. */
  lemma PlusIs(a: bv32, b: bv32)
    ensures Plus(a, b) == a + b
  {
  }

  lemma Sum4Is(a: bv32, b: bv32, c: bv32, d: bv32)
    ensures Sum4(a, b, c, d) == a + b + c + d
  {
  }

  lemma Sum5Is(a: bv32, b: bv32, c: bv32, d: bv32, e: bv32)
    ensures Sum5(a, b, c, d, e) == a + b + c + d + e
  {
  }

  lemma Xor4Is(a: bv32, b: bv32, c: bv32, d: bv32)
    ensures Xor4(a, b, c, d) == a ^ b ^ c ^ d
  {
  }

  /** The circular shift. */
  lemma RotlShifts(x: bv32, n: nat)
    requires 0 < n < 32
    ensures Rotl(x, n) == (x << n) | (x >> (32 - n))
  {
    OrIs(ShiftLeft(x, n), ShiftRight(x, 32 - n));
    hide Or;
  }

  lemma OrIs(x: bv32, y: bv32)
    ensures Or(x, y) == x | y
  {
  }

  /** The length in bits, modulo two to the 64th. */
  lemma Bits(len: nat)
    ensures BitCount(len) == 8 * ((len % 0x1_0000_0000_0000_0000) as bv64)
  {
    hide BitCount;
    BitsOf(len, (len % 0x1_0000_0000_0000_0000) as bv64);
  }

  lemma BitsOf(len: nat, low: bv64)
    requires low == (len % 0x1_0000_0000_0000_0000) as bv64
    ensures BitCount(len) == low << 3
    ensures BitCount(len) == 8 * low
  {
    EightTimes(low);
  }

  lemma EightTimes(low: bv64)
    ensures low << 3 == 8 * low
  {
  }

  // ----- MD5 -----

  /** The table T of section 3.4, eight entries a row. */
  function TRow(k: nat): (row: seq<bv32>)
    requires k < 8
    ensures |row| == 8
  {
    if k == 0 then [0xD76AA478, 0xE8C7B756, 0x242070DB, 0xC1BDCEEE, 0xF57C0FAF, 0x4787C62A, 0xA8304613, 0xFD469501]
    else if k == 1 then [0x698098D8, 0x8B44F7AF, 0xFFFF5BB1, 0x895CD7BE, 0x6B901122, 0xFD987193, 0xA679438E, 0x49B40821]
    else if k == 2 then [0xF61E2562, 0xC040B340, 0x265E5A51, 0xE9B6C7AA, 0xD62F105D, 0x02441453, 0xD8A1E681, 0xE7D3FBC8]
    else if k == 3 then [0x21E1CDE6, 0xC33707D6, 0xF4D50D87, 0x455A14ED, 0xA9E3E905, 0xFCEFA3F8, 0x676F02D9, 0x8D2A4C8A]
    else if k == 4 then [0xFFFA3942, 0x8771F681, 0x6D9D6122, 0xFDE5380C, 0xA4BEEA44, 0x4BDECFA9, 0xF6BB4B60, 0xBEBFBC70]
    else if k == 5 then [0x289B7EC6, 0xEAA127FA, 0xD4EF3085, 0x04881D05, 0xD9D4D039, 0xE6DB99E5, 0x1FA27CF8, 0xC4AC5665]
    else if k == 6 then [0xF4292244, 0x432AFF97, 0xAB9423A7, 0xFC93A039, 0x655B59C3, 0x8F0CCC92, 0xFFEFF47D, 0x85845DD1]
    else [0x6FA87E4F, 0xFE2CE6E0, 0xA3014314, 0x4E0811A1, 0xF7537E82, 0xBD3AF235, 0x2AD7D2BB, 0xEB86D391]
  }

  function T(j: nat): bv32
    requires j < 64
  {
    TRow(j / 8)[j % 8]
  }

  /** The shift amounts of the four rounds. */
  function Amount(round: nat, i: nat): (n: nat)
    requires round < 4 && i < 4
    ensures 0 < n < 32
  {
    if round == 0 then if i == 0 then 7 else if i == 1 then 12 else if i == 2 then 17 else 22
    else if round == 1 then if i == 0 then 5 else if i == 1 then 9 else if i == 2 then 14 else 20
    else if round == 2 then if i == 0 then 4 else if i == 1 then 11 else if i == 2 then 16 else 23
    else if i == 0 then 6 else if i == 1 then 10 else if i == 2 then 15 else 21
  }

  function Shift(j: nat): (n: nat)
    requires j < 64
    ensures 0 < n < 32
  {
    Amount(j / 16, j % 16 % 4)
  }

  /** The auxiliary functions F, G, H and I. */
  function Auxiliary(round: nat, x: bv32, y: bv32, z: bv32): bv32 {
    if round == 0 then (x & y) | (!x & z)
    else if round == 1 then (x & z) | (y & !z)
    else if round == 2 then x ^ y ^ z
    else y ^ (x | !z)
  }

  /** Which word of the block step j uses: within a round every word, 1, 5, 3 or 7 places on each time. */
  function WordIndex(j: nat): (k: nat)
    requires j < 64
    ensures k < 16
  {
    var i := j % 16;
    if j < 16 then i else if j < 32 then (1 + 5 * i) % 16 else if j < 48 then (5 + 3 * i) % 16 else (7 * i) % 16
  }

  function WordOf(block: seq<bv8>, k: nat): bv32
    requires |block| == 64 && k < 16
  {
    Word32(block[4 * k..4 * k + 4])
  }

  /** Step j writes the registers in the order A, D, C, B: which register plays role i, 0 standing for a. */
  function Role(j: nat, i: nat): (r: nat)
    requires i < 4
    ensures r < 4
  {
    var k := i + 4 - j % 4;
    if k >= 4 then k - 4 else k
  }

  function Sum4(a: bv32, f: bv32, x: bv32, t: bv32): bv32 {
    a + f + x + t
  }

  function Plus(a: bv32, b: bv32): bv32 {
    a + b
  }

  /** a = b + ((a + F(b, c, d) + X[k] + T(j)) <<< s) */
  function Md5Step(r: seq<bv32>, block: seq<bv8>, j: nat): (r': seq<bv32>)
    requires |r| == 4 && |block| == 64 && j < 64
    ensures |r'| == 4
  {
    var a, b, c, d := r[Role(j, 0)], r[Role(j, 1)], r[Role(j, 2)], r[Role(j, 3)];
    r[Role(j, 0) := Plus(b, Rotl(Sum4(a, Auxiliary(j / 16, b, c, d), WordOf(block, WordIndex(j)), T(j)), Shift(j)))]
  }

  function Md5Steps(r: seq<bv32>, block: seq<bv8>, n: nat): (r': seq<bv32>)
    requires |r| == 4 && |block| == 64 && n <= 64
    ensures |r'| == 4
  {
    if n == 0 then r else Md5Step(Md5Steps(r, block, n - 1), block, n - 1)
  }

  function AddAll(r: seq<bv32>, s: seq<bv32>): (t: seq<bv32>)
    requires |r| == |s|
    ensures |t| == |r|
  {
    seq(|r|, i requires 0 <= i < |r| => Plus(r[i], s[i]))
  }

  function Md5Block(r: seq<bv32>, block: seq<bv8>): (r': seq<bv32>)
    requires |r| == 4 && |block| == 64
    ensures |r'| == 4
  {
    AddAll(r, Md5Steps(r, block, 64))
  }

  /** The fold of the block function over the blocks of a padded message. */
  function Md5Blocks(r: seq<bv32>, p: seq<bv8>): (r': seq<bv32>)
    requires |r| == 4 && |p| % 64 == 0
    ensures |r'| == 4
    decreases |p|
  {
    if |p| == 0 then r else Md5Blocks(Md5Block(r, p[..64]), p[64..])
  }

  const MD5_INIT: seq<bv32> := [0x67452301, 0xEFCDAB89, 0x98BADCFE, 0x10325476]

  function Md5(m: seq<bv8>): (r: seq<bv32>)
    ensures |r| == 4
  {
    Md5Blocks(MD5_INIT, Pad(m, false))
  }

  // ----- SHA-1 -----

  function ShaFunction(t: nat, b: bv32, c: bv32, d: bv32): bv32 {
    if t < 20 then (b & c) | (!b & d)
    else if t < 40 then b ^ c ^ d
    else if t < 60 then (b & c) | (b & d) | (c & d)
    else b ^ c ^ d
  }

  function ShaConstant(t: nat): bv32 {
    if t < 20 then 0x5A827999 else if t < 40 then 0x6ED9EBA1 else if t < 60 then 0x8F1BBCDC else 0xCA62C1D6
  }

  predicate Below(k: nat, r: nat, n: nat) {
    k * k <= n * r * r < (k + 1) * (k + 1)
  }

  /** The four constants are the integer parts of the square roots of 2, 3, 5 and 10 times two to the 30th. */
  lemma ShaConstantIsRoot(t: nat)
    ensures ShaConstant(t) as nat == ShaRoot(t)
    ensures Below(ShaRoot(t), 0x4000_0000, if t < 20 then 2 else if t < 40 then 3 else if t < 60 then 5 else 10)
  {
  }

  function ShaRoot(t: nat): nat {
    if t < 20 then 0x5A827999 else if t < 40 then 0x6ED9EBA1 else if t < 60 then 0x8F1BBCDC else 0xCA62C1D6
  }

  function Xor4(a: bv32, b: bv32, c: bv32, d: bv32): bv32 {
    a ^ b ^ c ^ d
  }

  /** The words of the schedule; the first sixteen are those of the block, read big-endian. */
  function W(block: seq<bv8>, t: nat): bv32
    requires |block| == 64
  {
    if t < 16 then BigWord32(block[4 * t..4 * t + 4])
    else Rotl(Xor4(W(block, t - 3), W(block, t - 8), W(block, t - 14), W(block, t - 16)), 1)
  }

  function Sum5(a: bv32, b: bv32, c: bv32, d: bv32, e: bv32): bv32 {
    a + b + c + d + e
  }

  function ShaStep(r: seq<bv32>, block: seq<bv8>, t: nat): (r': seq<bv32>)
    requires |r| == 5 && |block| == 64
    ensures |r'| == 5
  {
    var temp := Sum5(Rotl(r[0], 5), ShaFunction(t, r[1], r[2], r[3]), r[4], W(block, t), ShaConstant(t));
    [temp, r[0], Rotl(r[1], 30), r[2], r[3]]
  }

  function ShaSteps(r: seq<bv32>, block: seq<bv8>, n: nat): (r': seq<bv32>)
    requires |r| == 5 && |block| == 64
    ensures |r'| == 5
  {
    if n == 0 then r else ShaStep(ShaSteps(r, block, n - 1), block, n - 1)
  }

  function ShaBlock(r: seq<bv32>, block: seq<bv8>): (r': seq<bv32>)
    requires |r| == 5 && |block| == 64
    ensures |r'| == 5
  {
    AddAll(r, ShaSteps(r, block, 80))
  }

  function ShaBlocks(r: seq<bv32>, p: seq<bv8>): (r': seq<bv32>)
    requires |r| == 5 && |p| % 64 == 0
    ensures |r'| == 5
    decreases |p|
  {
    if |p| == 0 then r else ShaBlocks(ShaBlock(r, p[..64]), p[64..])
  }

  const SHA_INIT: seq<bv32> := [0x67452301, 0xEFCDAB89, 0x98BADCFE, 0x10325476, 0xC3D2E1F0]

  function Sha1(m: seq<bv8>): (r: seq<bv32>)
    ensures |r| == 5
  {
    ShaBlocks(SHA_INIT, Pad(m, true))
  }
}
