/** src/digest.c: message digests over a data buffer and a separately padded tail. */
module Digest {
  import opened Words
  import opened DigestSpec

  // ----- single steps against the standards -----

  /** The function f of md5_round. */
  function Md5F(j: nat, b: bv32, c: bv32, d: bv32): bv32 {
    if j < 16 then (b & c) | (!b & d)
    else if j < 32 then (d & b) | (!d & c)
    else if j < 48 then b ^ c ^ d
    else c ^ (b | !d)
  }

  function Md5G(j: nat): nat {
    if j < 16 then j else if j < 32 then (5 * j + 1) % 16 else if j < 48 then (3 * j + 5) % 16 else (7 * j) % 16
  }

  /** The sixteen shift amounts of a round. */
  function Amounts(round: nat): (s: seq<nat>)
    requires round < 4
    ensures |s| == 16
  {
    if round == 0 then [7, 12, 17, 22, 7, 12, 17, 22, 7, 12, 17, 22, 7, 12, 17, 22]
    else if round == 1 then [5, 9, 14, 20, 5, 9, 14, 20, 5, 9, 14, 20, 5, 9, 14, 20]
    else if round == 2 then [4, 11, 16, 23, 4, 11, 16, 23, 4, 11, 16, 23, 4, 11, 16, 23]
    else [6, 10, 15, 21, 6, 10, 15, 21, 6, 10, 15, 21, 6, 10, 15, 21]
  }

  function S(j: nat): nat
    requires j < 64
  {
    Amounts(j / 16)[j % 16]
  }

  lemma FIsAuxiliary(j: nat, b: bv32, c: bv32, d: bv32)
    requires j < 64
    ensures Md5F(j, b, c, d) == Auxiliary(j / 16, b, c, d)
  {
  }

  lemma ModShift(a: int, b: int, k: int)
    requires a == b + 16 * k
    ensures a % 16 == b % 16
  {
  }

  lemma GIsIndex(j: nat)
    requires j < 64
    ensures Md5G(j) == WordIndex(j)
  {
    var i, q := j % 16, j / 16;
    ModShift(5 * j + 1, 1 + 5 * i, 5 * q);
    ModShift(3 * j + 5, 5 + 3 * i, 3 * q);
    ModShift(7 * j, 7 * i, 7 * q);
  }

  lemma AmountIsShift(j: nat)
    requires j < 64
    ensures S(j) == Shift(j)
  {
    var i := j % 16;
    AmountsRepeat(j / 16, i / 4, i % 4);
    hide Amounts, Amount;
    assert i == 4 * (i / 4) + i % 4;
  }

  lemma AmountsRepeat(round: nat, k: nat, i: nat)
    requires round < 4 && k < 4 && i < 4
    ensures Amounts(round)[4 * k + i] == Amount(round, i)
  {
  }

  lemma RotateIsRotl(x: bv32, n: nat)
    requires 0 < n < 32
    ensures LeftRotate(x, n) == Rotl(x, n)
  {
    hide Or, ShiftLeft, ShiftRight;
    OrCommutes(ShiftRight(x, 32 - n), ShiftLeft(x, n));
  }

  /** The sum in the order of the code. */
  function Md5Sum4(f: bv32, a: bv32, k: bv32, x: bv32): bv32 {
    f + (a + k + x)
  }

  lemma SumReordered(f: bv32, a: bv32, k: bv32, x: bv32)
    ensures Md5Sum4(f, a, k, x) == Sum4(a, f, x, k)
  {
  }

  lemma RolesNext(j: nat)
    ensures Role(j + 1, 0) == Role(j, 3) && Role(j + 1, 1) == Role(j, 0)
    ensures Role(j + 1, 2) == Role(j, 1) && Role(j + 1, 3) == Role(j, 2)
    ensures Role(j, 0) != Role(j, 1) && Role(j, 0) != Role(j, 2) && Role(j, 0) != Role(j, 3)
  {
    assert j % 4 == 3 || (j + 1) % 4 == j % 4 + 1;
    assert j % 4 == 3 ==> (j + 1) % 4 == 0;
  }

  lemma RolesBack(j: nat)
    requires j % 4 == 0
    ensures Role(j, 0) == 0 && Role(j, 1) == 1 && Role(j, 2) == 2 && Role(j, 3) == 3
  {
  }

  /** After one pass of the loop the roles have moved on by one register. */
  lemma RolesMove(r: seq<bv32>, block: seq<bv8>, j: nat)
    requires |r| == 4 && |block| == 64 && j < 64
    ensures var a, b, c, d := r[Role(j, 0)], r[Role(j, 1)], r[Role(j, 2)], r[Role(j, 3)];
      var r' := Md5Step(r, block, j);
      && r'[Role(j + 1, 0)] == d && r'[Role(j + 1, 3)] == c && r'[Role(j + 1, 2)] == b
      && r'[Role(j + 1, 1)]
        == Plus(b, Rotl(Sum4(a, Auxiliary(j / 16, b, c, d), WordOf(block, WordIndex(j)), T(j)), Shift(j)))
  {
    hide Role, Plus, Rotl, Sum4, Auxiliary, WordOf, WordIndex, Shift, T;
    RolesNext(j);
  }

  /** md5_round on one block of 64 bytes */
  method Md5Round(block: seq<bv8>, res: array<bv32>)
    requires |block| == 64 && res.Length == 4
    modifies res
    ensures res[..] == Md5Block(old(res[..]), block)
  {
    hide Plus, Rotl, Sum4, Auxiliary, WordOf, WordIndex, Shift, Md5F, Md5G, Md5Sum4, LeftRotate, Md5Step, S, T, Role;
    ghost var r := res[..];
    var a, b, c, d := res[0], res[1], res[2], res[3];
    RolesBack(0);
    for j := 0 to 64
      invariant res[..] == r
      invariant var now := Md5Steps(r, block, j);
        a == now[Role(j, 0)] && b == now[Role(j, 1)] && c == now[Role(j, 2)] && d == now[Role(j, 3)]
    {
      ghost var now := Md5Steps(r, block, j);
      RolesMove(now, block, j);
      FIsAuxiliary(j, b, c, d);
      GIsIndex(j);
      AmountIsShift(j);
      var f := Md5F(j, b, c, d);
      SumReordered(f, a, T(j), WordOf(block, Md5G(j)));
      f := Md5Sum4(f, a, T(j), WordOf(block, Md5G(j)));
      RotateIsRotl(f, S(j));
      a, d, c, b := d, c, b, Plus(b, LeftRotate(f, S(j)));
    }
    RolesBack(64);
    res[0], res[1], res[2], res[3] := Plus(res[0], a), Plus(res[1], b), Plus(res[2], c), Plus(res[3], d);
    assert res[..] == AddAll(r, Md5Steps(r, block, 64));
  }

  function ShaF(j: nat, b: bv32, c: bv32, d: bv32): bv32 {
    if j < 20 then (b & c) ^ (!b & d)
    else if j < 40 then b ^ c ^ d
    else if j < 60 then (b & c) ^ (b & d) ^ (c & d)
    else b ^ c ^ d
  }

  lemma ShaFIsFunction(j: nat, b: bv32, c: bv32, d: bv32)
    ensures ShaF(j, b, c, d) == ShaFunction(j, b, c, d)
  {
    Choice(b, c, d);
    Majority(b, c, d);
  }

  lemma Choice(b: bv32, c: bv32, d: bv32)
    ensures (b & c) ^ (!b & d) == (b & c) | (!b & d)
  {
  }

  lemma Majority(b: bv32, c: bv32, d: bv32)
    ensures (b & c) ^ (b & d) ^ (c & d) == (b & c) | (b & d) | (c & d)
  {
  }

  function ShaSum(a: bv32, f: bv32, e: bv32, k: bv32, w: bv32): bv32 {
    a + f + e + k + w
  }

  lemma ShaSumReordered(a: bv32, f: bv32, e: bv32, k: bv32, w: bv32)
    ensures ShaSum(a, f, e, k, w) == Sum5(a, f, e, w, k)
  {
  }

  /** w[j] of the schedule. */
  method ScheduleWord(block: seq<bv8>, w: array<bv32>, j: nat)
    requires |block| == 64 && w.Length == 80 && j < 80 && forall t :: 0 <= t < j ==> w[t] == W(block, t)
    modifies w
    ensures forall t :: 0 <= t <= j ==> w[t] == W(block, t)
  {
    hide Rotl, LeftRotate, Xor4, BigWord32, Word32, Swapped32;
    var word;
    if j < 16 {
      SwapReads(block[4 * j..4 * j + 4]);
      word := SwapEndian32(Word32(block[4 * j..4 * j + 4]));
    } else {
      RotateIsRotl(Xor4(w[j - 3], w[j - 8], w[j - 14], w[j - 16]), 1);
      word := LeftRotate(Xor4(w[j - 3], w[j - 8], w[j - 14], w[j - 16]), 1);
    }
    w[j] := word;
  }

  lemma ShaNoStep(r: seq<bv32>, block: seq<bv8>)
    requires |r| == 5 && |block| == 64
    ensures ShaSteps(r, block, 0) == r
  {
  }

  lemma ShaOneStep(r: seq<bv32>, block: seq<bv8>, t: nat)
    requires |r| == 5 && |block| == 64
    ensures var now, next := ShaSteps(r, block, t), ShaSteps(r, block, t + 1);
      && next[0] == Sum5(Rotl(now[0], 5), ShaFunction(t, now[1], now[2], now[3]), now[4], W(block, t), ShaConstant(t))
      && next[1] == now[0] && next[2] == Rotl(now[1], 30) && next[3] == now[2] && next[4] == now[3]
  {
    hide Plus, Rotl, Sum5, ShaFunction, ShaConstant, W;
  }

  /** sha1_round on one block of 64 bytes */
  method Sha1Round(block: seq<bv8>, res: array<bv32>)
    requires |block| == 64 && res.Length == 5
    modifies res
    ensures res[..] == ShaBlock(old(res[..]), block)
  {
    hide Plus, Rotl, Sum5, ShaFunction, ShaF, ShaSum, ShaConstant, LeftRotate, W, ShaSteps;
    ghost var r := res[..];
    var a, b, c, d, e := res[0], res[1], res[2], res[3], res[4];
    var w := new bv32[80];
    ShaNoStep(r, block);
    for j := 0 to 80
      invariant res[..] == r
      invariant forall t :: 0 <= t < j ==> w[t] == W(block, t)
      invariant var now := ShaSteps(r, block, j);
        a == now[0] && b == now[1] && c == now[2] && d == now[3] && e == now[4]
    {
      ShaOneStep(r, block, j);
      ScheduleWord(block, w, j);
      ShaFIsFunction(j, b, c, d);
      RotateIsRotl(a, 5);
      RotateIsRotl(b, 30);
      ShaSumReordered(LeftRotate(a, 5), ShaF(j, b, c, d), e, ShaConstant(j), w[j]);
      var tmp := ShaSum(LeftRotate(a, 5), ShaF(j, b, c, d), e, ShaConstant(j), w[j]);
      e, d, c, b, a := d, c, LeftRotate(b, 30), a, tmp;
    }
    res[0], res[1], res[2] := Plus(res[0], a), Plus(res[1], b), Plus(res[2], c);
    res[3], res[4] := Plus(res[3], d), Plus(res[4], e);
    assert res[..] == AddAll(r, ShaSteps(r, block, 80));
  }

  // ----- the tail -----

  const SIZE_T := 0x1_0000_0000_0000_0000

  /** pad_message: the bytes after the last whole block, padded to one or two blocks. */
  method PadMessage(data: array<bv8>, tail: array<bv8>, be: bool) returns (tailSize: nat)
    requires data.Length < SIZE_T && tail.Length == 128 && tail != data && forall i :: 0 <= i < 128 ==> tail[i] == 0
    modifies tail
    ensures tailSize == 1 || tailSize == 2
    ensures data[..64 * (data.Length / 64)] + tail[..64 * tailSize] == Pad(data[..], be)
  {
    hide Bytes64, BitCount;
    var len := data.Length;
    var rest := len % 64;
    tailSize := if rest > 55 then 2 else 1;
    var truncLen := BitCount(len);
    var idx := 0;
    while idx < rest
      invariant 0 <= idx <= rest
      invariant forall i :: 0 <= i < 128 ==> tail[i] == if i < idx then data[len - rest + i] else 0
    {
      tail[idx] := data[len - rest + idx];
      idx := idx + 1;
    }
    tail[idx] := 0x80;
    if be {
      truncLen := SwapEndian64(truncLen);
    }
    var at := if tailSize == 1 then 56 else 120;
    StoreWord(tail, at, truncLen);
    PadFits(data[..], tail[..], rest, tailSize, be, Bytes64(truncLen));
  }

  /** *(uint64_t*)&(tail[at]) = v */
  method StoreWord(tail: array<bv8>, at: nat, v: bv64)
    requires tail.Length == 128 && at + 8 <= 128
    modifies tail
    ensures forall i :: 0 <= i < 128 ==> tail[i] == if at <= i < at + 8 then Bytes64(v)[i - at] else old(tail[i])
  {
    hide Bytes64;
    var bytes := Bytes64(v);
    for i := 0 to 8
      invariant forall k :: 0 <= k < 128 ==> tail[k] == if at <= k < at + i then bytes[k - at] else old(tail[k])
    {
      tail[at + i] := bytes[i];
    }
  }

  lemma PadFits(m: seq<bv8>, tail: seq<bv8>, rest: nat, tailSize: nat, be: bool, length: seq<bv8>)
    requires |tail| == 128 && rest == |m| % 64 && tailSize == (if rest > 55 then 2 else 1)
    requires length == LengthBytes(|m|, be)
    requires forall i :: 0 <= i < 128 ==>
      tail[i] == if i < rest then m[|m| - rest + i] else if i == rest then 0x80
                 else if 64 * tailSize - 8 <= i < 64 * tailSize then length[i - (64 * tailSize - 8)] else 0
    ensures m[..64 * (|m| / 64)] + tail[..64 * tailSize] == Pad(m, be)
  {
    hide LengthBytes;
    var n := 64 * (|m| / 64);
    assert n == |m| - rest;
    var l, r := m[..n] + tail[..64 * tailSize], Pad(m, be);
    assert ZeroCount(|m|) == 64 * tailSize - 9 - rest;
    assert |l| == |r|;
    forall i | 0 <= i < |l|
      ensures l[i] == r[i]
    {
    }
  }

  // ----- the digests -----

  lemma {:induction false} Md5BlocksAppend(r: seq<bv32>, p: seq<bv8>, q: seq<bv8>)
    requires |r| == 4 && |p| % 64 == 0 && |q| % 64 == 0
    ensures Md5Blocks(r, p + q) == Md5Blocks(Md5Blocks(r, p), q)
    decreases |p|
  {
    hide Md5Block;
    if |p| == 0 {
      assert p + q == q;
    } else {
      assert (p + q)[..64] == p[..64] && (p + q)[64..] == p[64..] + q;
      Md5BlocksAppend(Md5Block(r, p[..64]), p[64..], q);
    }
  }

  lemma Md5OneMore(r: seq<bv32>, p: seq<bv8>, n: nat)
    requires |r| == 4 && 64 * (n + 1) <= |p|
    ensures Md5Blocks(r, p[..64 * (n + 1)]) == Md5Block(Md5Blocks(r, p[..64 * n]), p[64 * n..64 * n + 64])
  {
    hide Md5Block;
    var block := p[64 * n..64 * n + 64];
    assert p[..64 * (n + 1)] == p[..64 * n] + block;
    Md5BlocksAppend(r, p[..64 * n], block);
    assert block[..64] == block && block[64..] == [];
    assert Md5Blocks(Md5Block(Md5Blocks(r, p[..64 * n]), block), []) == Md5Block(Md5Blocks(r, p[..64 * n]), block);
  }

  /** The loop over the first n blocks of a buffer. */
  method Md5Over(data: array<bv8>, n: nat, res: array<bv32>)
    requires 64 * n <= data.Length && res.Length == 4
    modifies res
    ensures res[..] == Md5Blocks(old(res[..]), data[..64 * n])
  {
    hide Md5Blocks, Md5Block;
    ghost var r := res[..];
    Md5None(r, data[..0]);
    for i := 0 to n
      invariant res[..] == Md5Blocks(r, data[..64 * i])
    {
      Md5OneMore(r, data[..], i);
      assert data[..][64 * i..64 * i + 64] == data[64 * i..64 * i + 64];
      assert data[..][..64 * i] == data[..64 * i] && data[..][..64 * (i + 1)] == data[..64 * (i + 1)];
      Md5Round(data[64 * i..64 * i + 64], res);
    }
  }

  lemma Md5None(r: seq<bv32>, p: seq<bv8>)
    requires |r| == 4 && p == []
    ensures Md5Blocks(r, p) == r
  {
  }

  /** md5sum: data blocks first, then the tail, is the fold over the padded message. */
  method Md5Sum(data: array<bv8>, res: array<bv32>)
    requires data.Length < SIZE_T && res.Length == 4
    modifies res
    ensures res[..] == Md5(data[..])
  {
    hide Md5Blocks, Pad;
    var tail := new bv8[128](_ => 0);
    var tailSize := PadMessage(data, tail, false);
    res[0], res[1], res[2], res[3] := 0x67452301, 0xEFCDAB89, 0x98BADCFE, 0x10325476;
    assert res[..] == MD5_INIT;
    Md5Over(data, data.Length / 64, res);
    Md5Over(tail, tailSize, res);
    Md5BlocksAppend(MD5_INIT, data[..64 * (data.Length / 64)], tail[..64 * tailSize]);
  }

  lemma {:induction false} ShaBlocksAppend(r: seq<bv32>, p: seq<bv8>, q: seq<bv8>)
    requires |r| == 5 && |p| % 64 == 0 && |q| % 64 == 0
    ensures ShaBlocks(r, p + q) == ShaBlocks(ShaBlocks(r, p), q)
    decreases |p|
  {
    hide ShaBlock;
    if |p| == 0 {
      assert p + q == q;
    } else {
      assert (p + q)[..64] == p[..64] && (p + q)[64..] == p[64..] + q;
      ShaBlocksAppend(ShaBlock(r, p[..64]), p[64..], q);
    }
  }

  lemma ShaOneMore(r: seq<bv32>, p: seq<bv8>, n: nat)
    requires |r| == 5 && 64 * (n + 1) <= |p|
    ensures ShaBlocks(r, p[..64 * (n + 1)]) == ShaBlock(ShaBlocks(r, p[..64 * n]), p[64 * n..64 * n + 64])
  {
    hide ShaBlock;
    var block := p[64 * n..64 * n + 64];
    assert p[..64 * (n + 1)] == p[..64 * n] + block;
    ShaBlocksAppend(r, p[..64 * n], block);
    assert block[..64] == block && block[64..] == [];
    assert ShaBlocks(ShaBlock(ShaBlocks(r, p[..64 * n]), block), []) == ShaBlock(ShaBlocks(r, p[..64 * n]), block);
  }

  method Sha1Over(data: array<bv8>, n: nat, res: array<bv32>)
    requires 64 * n <= data.Length && res.Length == 5
    modifies res
    ensures res[..] == ShaBlocks(old(res[..]), data[..64 * n])
  {
    hide ShaBlocks, ShaBlock;
    ghost var r := res[..];
    ShaNone(r, data[..0]);
    for i := 0 to n
      invariant res[..] == ShaBlocks(r, data[..64 * i])
    {
      ShaOneMore(r, data[..], i);
      assert data[..][64 * i..64 * i + 64] == data[64 * i..64 * i + 64];
      assert data[..][..64 * i] == data[..64 * i] && data[..][..64 * (i + 1)] == data[..64 * (i + 1)];
      Sha1Round(data[64 * i..64 * i + 64], res);
    }
  }

  lemma ShaNone(r: seq<bv32>, p: seq<bv8>)
    requires |r| == 5 && p == []
    ensures ShaBlocks(r, p) == r
  {
  }

  /** sha1sum: the result words lie in memory highest byte first. */
  method Sha1Sum(data: array<bv8>, res: array<bv32>)
    requires data.Length < SIZE_T && res.Length == 5
    modifies res
    ensures forall i :: 0 <= i < 5 ==> Bytes32(res[i]) == Reversed(Bytes32(Sha1(data[..])[i]))
  {
    hide ShaBlocks, Pad, Bytes32, Swapped32;
    var tail := new bv8[128](_ => 0);
    var tailSize := PadMessage(data, tail, true);
    res[0], res[1], res[2], res[3], res[4] := 0x67452301, 0xEFCDAB89, 0x98BADCFE, 0x10325476, 0xC3D2E1F0;
    assert res[..] == SHA_INIT;
    Sha1Over(data, data.Length / 64, res);
    Sha1Over(tail, tailSize, res);
    ShaBlocksAppend(SHA_INIT, data[..64 * (data.Length / 64)], tail[..64 * tailSize]);
    ghost var h := res[..];
    assert h == Sha1(data[..]);
    for i := 0 to 5
      invariant forall k :: 0 <= k < 5 ==> if k < i then Bytes32(res[k]) == Reversed(Bytes32(h[k])) else res[k] == h[k]
    {
      SwapStores(res[i]);
      var swapped := SwapEndian32(res[i]);
      res[i] := swapped;
    }
  }
}
