/** The running firmware checksum that host and device both keep. */
module Checksum {

  function Add(c: bv32, d: bv32): bv32 {
    c + d
  }

  function Xor(c: bv32, d: bv32): bv32 {
    c ^ d
  }

  function Wide(b: bv8): bv32 {
    b as bv32
  }

  function Step(c: bv32, b: bv8): bv32 {
    Xor(Add(c, Wide(b)), Wide(b) << 4)
  }

  function Fold(c: bv32, s: seq<bv8>): bv32 {
    if s == [] then c else Step(Fold(c, s[..|s| - 1]), s[|s| - 1])
  }

  function Low16(c: bv32): (r: bv32)
    ensures r <= 0xFFFF
  {
    c & 0xFFFF
  }

  /** The low half of a step depends on the low half before it only. */
  lemma StepLow(c: bv32, b: bv8)
    ensures Low16(Step(Low16(c), b)) == Low16(Step(c, b))
  {
    hide Low16, Add, Xor, Wide;
    AddLow(c, Wide(b));
    XorLow(Add(Low16(c), Wide(b)), Wide(b) << 4);
    XorLow(Add(c, Wide(b)), Wide(b) << 4);
  }

  lemma AddLow(c: bv32, d: bv32)
    ensures Low16(Add(Low16(c), d)) == Low16(Add(c, d))
  {
    hide Low16, Add, LowSum;
    LowIs(c);
    LowOfAdd(Low16(c), d);
    LowOfAdd(c, d);
    CarryGoesUp(c, d, Low16(c));
  }

  function LowSum(c: bv32, d: bv32): bv32 {
    (c + d) & 0xFFFF
  }

  lemma LowOfAdd(c: bv32, d: bv32)
    ensures Low16(Add(c, d)) == LowSum(c, d)
  {
  }

  lemma CarryGoesUp(c: bv32, d: bv32, low: bv32)
    requires low == c & 0xFFFF
    ensures LowSum(low, d) == LowSum(c, d)
  {
  }

  lemma XorLow(c: bv32, d: bv32)
    ensures Low16(Xor(c, d)) == Xor(Low16(c), Low16(d))
  {
  }

  lemma StepLowEqual(c: bv32, d: bv32, b: bv8)
    requires Low16(c) == Low16(d)
    ensures Low16(Step(c, b)) == Low16(Step(d, b))
  {
    StepLow(c, b);
    StepLow(d, b);
  }

  lemma LowIdempotent(c: bv32)
    ensures Low16(Low16(c)) == Low16(c)
  {
  }

  /** Masking before the fold does not show in the masked result. */
  lemma {:induction false} FoldLow(c: bv32, s: seq<bv8>)
    ensures Low16(Fold(Low16(c), s)) == Low16(Fold(c, s))
  {
    hide Low16, Step;
    if s == [] {
      LowIdempotent(c);
    } else {
      var front, b := s[..|s| - 1], s[|s| - 1];
      FoldLow(c, front);
      StepLowEqual(Fold(Low16(c), front), Fold(c, front), b);
    }
  }

  lemma {:induction false} FoldAppend(c: bv32, s: seq<bv8>, t: seq<bv8>)
    ensures Fold(c, s + t) == Fold(Fold(c, s), t)
  {
    hide Step;
    if t == [] {
      assert s + t == s;
    } else {
      var front := t[..|t| - 1];
      FoldAppend(c, s, front);
      assert (s + t)[..|s + t| - 1] == s + front;
    }
  }

  /** The device masks after every packet, the host once at the end: both get the same. */
  lemma PacketwiseMasking(image: seq<bv8>, more: seq<bv8>)
    ensures Low16(Fold(Low16(Fold(0, image)), more)) == Low16(Fold(0, image + more))
  {
    FoldLow(Fold(0, image), more);
    FoldAppend(0, image, more);
  }

  /** The checksum of an image in the operators of the two programs. */
  function ImageSum(image: seq<bv8>): bv32 {
    Low16(Fold(0, image))
  }

  /** Nothing sums to 0; one more byte is added, and put over the sum once more, shifted by four bits. */
  lemma ImageSumGrows(image: seq<bv8>, b: bv8)
    ensures ImageSum([]) == 0
    ensures ImageSum(image + [b]) == ((ImageSum(image) + b as bv32) ^ ((b as bv32) << 4)) & 0xFFFF
  {
    hide Low16, Step, Fold;
    FoldNext(0, image, b);
    StepLow(Fold(0, image), b);
    LowStep(ImageSum(image), b);
    NothingSums();
  }

  lemma FoldNext(c: bv32, s: seq<bv8>, b: bv8)
    ensures Fold(c, s + [b]) == Step(Fold(c, s), b)
  {
    hide Step;
    assert (s + [b])[..|s|] == s;
  }

  lemma NothingSums()
    ensures ImageSum([]) == 0
  {
  }

  lemma LowStep(c: bv32, b: bv8)
    ensures Low16(Step(c, b)) == ((c + b as bv32) ^ ((b as bv32) << 4)) & 0xFFFF
  {
    StepIs(c, b);
    hide Low16, Step, Mixed;
    forall d
      ensures Low16(Mixed(c, d)) == ((c + d) ^ (d << 4)) & 0xFFFF
    {
      LowMixed(c, d);
    }
  }

  lemma LowMixed(c: bv32, d: bv32)
    ensures Low16(Mixed(c, d)) == ((c + d) ^ (d << 4)) & 0xFFFF
  {
    MixedIs(c, d);
    hide Low16, Mixed;
    LowIs(Mixed(c, d));
  }

  function Mixed(c: bv32, d: bv32): bv32 {
    (c + d) ^ (d << 4)
  }

  lemma MixedIs(c: bv32, d: bv32)
    ensures Mixed(c, d) == (c + d) ^ (d << 4)
  {
  }

  lemma StepIs(c: bv32, b: bv8)
    ensures Step(c, b) == Mixed(c, b as bv32)
  {
    hide Add, Xor, Mixed;
    SumMixed(c, Wide(b));
  }

  lemma SumMixed(c: bv32, d: bv32)
    ensures Xor(Add(c, d), d << 4) == Mixed(c, d)
  {
    hide Add, Xor;
    XorOfSum(c, d, c + d);
  }

  lemma XorOfSum(c: bv32, d: bv32, sum: bv32)
    requires sum == c + d
    ensures Xor(Add(c, d), d << 4) == sum ^ (d << 4)
  {
    AddIs(c, d);
    hide Add;
  }

  lemma AddIs(c: bv32, d: bv32)
    ensures Add(c, d) == c + d
  {
  }

  lemma LowIs(c: bv32)
    ensures Low16(c) == c & 0xFFFF
  {
  }
}
