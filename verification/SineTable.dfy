/** The table of MD5 against the sine: section 3.4 of RFC 1321 takes entry i to be the integer part of 4294967296 times
    abs(sin(i)), i in radians. */
module SineTable {
  import opened DigestSpec

  // ----- what is known of the sine -----

  function Factorial(n: nat): (f: nat)
    ensures f >= 1
  {
    if n == 0 then 1 else n * Factorial(n - 1)
  }

  /** The first n terms of 1 - 1/3! + 1/5! - ... */
  function SineSum(n: nat): real {
    if n == 0 then 0.0
    else SineSum(n - 1) + (if n % 2 == 1 then 1.0 else -1.0) / Factorial(2 * n - 1) as real
  }

  /** The first n terms of 1 - 1/2! + 1/4! - ... */
  function CosineSum(n: nat): real {
    if n == 0 then 0.0
    else CosineSum(n - 1) + (if n % 2 == 1 then 1.0 else -1.0) / Factorial(2 * n - 2) as real
  }

  predicate Adds(sine: nat -> real, cosine: nat -> real, n: nat) {
    && sine(n + 1) == sine(n) * cosine(1) + cosine(n) * sine(1)
    && cosine(n + 1) == cosine(n) * cosine(1) - sine(n) * sine(1)
  }

  predicate Brackets(sine: nat -> real, cosine: nat -> real, n: nat) {
    SineSum(2 * n) <= sine(1) <= SineSum(2 * n + 1) && CosineSum(2 * n) <= cosine(1) <= CosineSum(2 * n + 1)
  }

  /** Sine and cosine of the whole numbers: the addition theorem, and at 1 the alternating series. */
  ghost predicate SineAndCosine(sine: nat -> real, cosine: nat -> real) {
    && (forall n: nat :: Adds(sine, cosine, n))
    && (forall n: nat :: Brackets(sine, cosine, n))
  }

  // ----- numbers in units of 10 to the minus 26th -----

  const SINE1 := 84147098480789650665250232
  const COSINE1 := 54030230586813971740093661

  function Scaled(x: real): real {
    x * 100000000000000000000000000.0
  }

  /** x is v units, give or take e of them. */
  predicate Near(x: real, v: int, e: nat) {
    -(e as real) <= Scaled(x) - v as real <= e as real
  }

  lemma Factorials()
    ensures Factorial(0) == 1 && Factorial(1) == 1
    ensures Factorial(2) == 2 && Factorial(3) == 6
    ensures Factorial(4) == 24 && Factorial(5) == 120
    ensures Factorial(6) == 720 && Factorial(7) == 5040
    ensures Factorial(8) == 40320 && Factorial(9) == 362880
    ensures Factorial(10) == 3628800 && Factorial(11) == 39916800
    ensures Factorial(12) == 479001600 && Factorial(13) == 6227020800
    ensures Factorial(14) == 87178291200 && Factorial(15) == 1307674368000
    ensures Factorial(16) == 20922789888000 && Factorial(17) == 355687428096000
    ensures Factorial(18) == 6402373705728000 && Factorial(19) == 121645100408832000
    ensures Factorial(20) == 2432902008176640000 && Factorial(21) == 51090942171709440000
    ensures Factorial(22) == 1124000727777607680000 && Factorial(23) == 25852016738884976640000
    ensures Factorial(24) == 620448401733239439360000 && Factorial(25) == 15511210043330985984000000
    ensures Factorial(26) == 403291461126605635584000000 && Factorial(27) == 10888869450418352160768000000
    ensures Factorial(28) == 304888344611713860501504000000 && Factorial(29) == 8841761993739701954543616000000
  {
    assert Factorial(0) == 1;
    assert Factorial(1) == 1;
    assert Factorial(2) == 2;
    assert Factorial(3) == 6;
    assert Factorial(4) == 24;
    assert Factorial(5) == 120;
    assert Factorial(6) == 720;
    assert Factorial(7) == 5040;
    assert Factorial(8) == 40320;
    assert Factorial(9) == 362880;
    assert Factorial(10) == 3628800;
    assert Factorial(11) == 39916800;
    assert Factorial(12) == 479001600;
    assert Factorial(13) == 6227020800;
    assert Factorial(14) == 87178291200;
    assert Factorial(15) == 1307674368000;
    assert Factorial(16) == 20922789888000;
    assert Factorial(17) == 355687428096000;
    assert Factorial(18) == 6402373705728000;
    assert Factorial(19) == 121645100408832000;
    assert Factorial(20) == 2432902008176640000;
    assert Factorial(21) == 51090942171709440000;
    assert Factorial(22) == 1124000727777607680000;
    assert Factorial(23) == 25852016738884976640000;
    assert Factorial(24) == 620448401733239439360000;
    assert Factorial(25) == 15511210043330985984000000;
    assert Factorial(26) == 403291461126605635584000000;
    assert Factorial(27) == 10888869450418352160768000000;
    assert Factorial(28) == 304888344611713860501504000000;
    assert Factorial(29) == 8841761993739701954543616000000;
  }

  lemma SineSums()
    ensures Near(SineSum(14), SINE1, 1) && Near(SineSum(15), SINE1, 1)
  {
    Factorials();
    hide Factorial;
    assert SineSum(1) == SineSum(0) + 1.0 / 1.0;
    assert SineSum(2) == SineSum(1) - 1.0 / 6.0;
    assert SineSum(3) == SineSum(2) + 1.0 / 120.0;
    assert SineSum(4) == SineSum(3) - 1.0 / 5040.0;
    assert SineSum(5) == SineSum(4) + 1.0 / 362880.0;
    assert SineSum(6) == SineSum(5) - 1.0 / 39916800.0;
    assert SineSum(7) == SineSum(6) + 1.0 / 6227020800.0;
    assert SineSum(8) == SineSum(7) - 1.0 / 1307674368000.0;
    assert SineSum(9) == SineSum(8) + 1.0 / 355687428096000.0;
    assert SineSum(10) == SineSum(9) - 1.0 / 121645100408832000.0;
    assert SineSum(11) == SineSum(10) + 1.0 / 51090942171709440000.0;
    assert SineSum(12) == SineSum(11) - 1.0 / 25852016738884976640000.0;
    assert SineSum(13) == SineSum(12) + 1.0 / 15511210043330985984000000.0;
    assert SineSum(14) == SineSum(13) - 1.0 / 10888869450418352160768000000.0;
    assert SineSum(15) == SineSum(14) + 1.0 / 8841761993739701954543616000000.0;
  }

  lemma CosineSums()
    ensures Near(CosineSum(14), COSINE1, 1) && Near(CosineSum(15), COSINE1, 1)
  {
    Factorials();
    hide Factorial;
    assert CosineSum(1) == CosineSum(0) + 1.0 / 1.0;
    assert CosineSum(2) == CosineSum(1) - 1.0 / 2.0;
    assert CosineSum(3) == CosineSum(2) + 1.0 / 24.0;
    assert CosineSum(4) == CosineSum(3) - 1.0 / 720.0;
    assert CosineSum(5) == CosineSum(4) + 1.0 / 40320.0;
    assert CosineSum(6) == CosineSum(5) - 1.0 / 3628800.0;
    assert CosineSum(7) == CosineSum(6) + 1.0 / 479001600.0;
    assert CosineSum(8) == CosineSum(7) - 1.0 / 87178291200.0;
    assert CosineSum(9) == CosineSum(8) + 1.0 / 20922789888000.0;
    assert CosineSum(10) == CosineSum(9) - 1.0 / 6402373705728000.0;
    assert CosineSum(11) == CosineSum(10) + 1.0 / 2432902008176640000.0;
    assert CosineSum(12) == CosineSum(11) - 1.0 / 1124000727777607680000.0;
    assert CosineSum(13) == CosineSum(12) + 1.0 / 620448401733239439360000.0;
    assert CosineSum(14) == CosineSum(13) - 1.0 / 403291461126605635584000000.0;
    assert CosineSum(15) == CosineSum(14) + 1.0 / 304888344611713860501504000000.0;
  }

  lemma Bracketed(sine: nat -> real, cosine: nat -> real)
    requires SineAndCosine(sine, cosine)
    ensures SineSum(14) <= sine(1) <= SineSum(15) && CosineSum(14) <= cosine(1) <= CosineSum(15)
  {
    hide SineSum, CosineSum;
    assert Brackets(sine, cosine, 7);
  }

  lemma NearBetween(x: real, low: real, high: real, v: int, e: nat)
    requires low <= x <= high && Near(low, v, e) && Near(high, v, e)
    ensures Near(x, v, e)
  {
  }

  lemma AtOne(sine: nat -> real, cosine: nat -> real)
    requires SineAndCosine(sine, cosine)
    ensures Near(sine(1), SINE1, 1) && Near(cosine(1), COSINE1, 1)
  {
    hide SineSum, CosineSum, SineAndCosine, Near;
    Bracketed(sine, cosine);
    SineSums();
    CosineSums();
    NearBetween(sine(1), SineSum(14), SineSum(15), SINE1, 1);
    NearBetween(cosine(1), CosineSum(14), CosineSum(15), COSINE1, 1);
  }

  // ----- one step -----

  lemma SmallProduct(p: real, q: real, e: real, d: real)
    requires -e <= p <= e && -d <= q <= d
    ensures -(e * d) <= p * q <= e * d
  {
    assert (e - p) * (d + q) >= 0.0 && (e + p) * (d - q) >= 0.0;
    assert (e - p) * (d - q) >= 0.0 && (e + p) * (d + q) >= 0.0;
    assert (e - p) * (d + q) == e * d + e * q - p * d - p * q;
    assert (e + p) * (d - q) == e * d - e * q + p * d - p * q;
    assert (e - p) * (d - q) == e * d - e * q - p * d + p * q;
    assert (e + p) * (d + q) == e * d + e * q + p * d + p * q;
  }

  /** A product of two numbers that are known up to e and up to one unit; v is at most one, w at most u. */
  lemma ProductNear(x: real, y: real, v: real, w: real, e: real, unit: real, u: real)
    requires -e <= x - v <= e && -1.0 <= y - w <= 1.0 && -unit <= v <= unit && -u <= w <= u && e >= 0.0
    ensures -(unit + u * e + e) <= x * y - v * w <= unit + u * e + e
  {
    SmallProduct(x - v, y - w, e, 1.0);
    SmallProduct(v, y - w, unit, 1.0);
    SmallProduct(x - v, w, e, u);
    assert x * y - v * w == (x - v) * (y - w) + v * (y - w) + (x - v) * w;
  }

  /** The product of the whole number n with the sine of 1, with its cosine, with the unit. */
  function BySine(n: int): int {
    n * 84147098480789650665250232
  }

  function ByCosine(n: int): int {
    n * 54030230586813971740093661
  }

  function ByUnit(n: int): int {
    n * 100000000000000000000000000
  }

  /** q is p in units, give or take one. */
  predicate Rounded(p: int, q: int) {
    ByUnit(q - 1) <= p <= ByUnit(q + 1)
  }

  function Grown(e: nat): nat {
    e + (e + 1) / 2
  }

  lemma ScaledSum(x: real, y: real, a: real, b: real)
    ensures Scaled(x * b + y * a) * 100000000000000000000000000.0 == Scaled(x) * Scaled(b) + Scaled(y) * Scaled(a)
  {
    ScaledProduct(x, b);
    ScaledProduct(y, a);
    hide Scaled;
    ScaledPlus(x * b, y * a);
  }

  lemma ScaledPlus(p: real, q: real)
    ensures Scaled(p + q) == Scaled(p) + Scaled(q)
  {
  }

  lemma ScaledProduct(x: real, y: real)
    ensures Scaled(x) * Scaled(y) == Scaled(x * y) * 100000000000000000000000000.0
  {
  }

  lemma AsReals(s: int, c: int, e: nat, q: int)
    requires 32 <= e && Rounded(ByCosine(s) + BySine(c), q)
    ensures var p := s as real * 54030230586813971740093661.0 + c as real * 84147098480789650665250232.0;
      (q as real - 1.0) * 100000000000000000000000000.0 <= p <= (q as real + 1.0) * 100000000000000000000000000.0
    ensures 3.0 * e as real <= 2.0 * Grown(e) as real
  {
    assert 3 * e <= 2 * Grown(e);
    assert (ByCosine(s) + BySine(c)) as real
        == s as real * 54030230586813971740093661.0 + c as real * 84147098480789650665250232.0;
  }

  lemma ErrorGrows(v: real, p: real, q: real, e: real, g: real, z: real, w: real)
    requires 32.0 <= e && 3.0 * e <= 2.0 * g && v * 100000000000000000000000000.0 == z
    requires (q - 1.0) * 100000000000000000000000000.0 <= p <= (q + 1.0) * 100000000000000000000000000.0
    requires w == 2.0 * 100000000000000000000000000.0
                  + 54030230586813971740093661.0 * e + 84147098480789650665250232.0 * e + 2.0 * e
    requires -w <= z - p <= w
    ensures -g <= v - q <= g
  {
  }

  /** One of the two sums of the addition theorem. */
  function Mixed(x: real, y: real, a: real, b: real): real {
    x * b + y * a
  }

  lemma TurnOne(x: real, y: real, a: real, b: real, s: int, c: int, e: nat, q: int)
    requires Near(x, s, e) && Near(y, c, e) && Near(a, SINE1, 1) && Near(b, COSINE1, 1) && 32 <= e
    requires ByUnit(-1) <= s <= ByUnit(1) && ByUnit(-1) <= c <= ByUnit(1) && Rounded(ByCosine(s) + BySine(c), q)
    ensures Near(Mixed(x, y, a, b), q, Grown(e))
  {
    ScaledSum(x, y, a, b);
    AsReals(s, c, e, q);
    hide Grown, Scaled;
    var u, d := 100000000000000000000000000.0, e as real;
    ProductNear(Scaled(x), Scaled(b), s as real, 54030230586813971740093661.0, d, u, 54030230586813971740093661.0);
    ProductNear(Scaled(y), Scaled(a), c as real, 84147098480789650665250232.0, d, u, 84147098480789650665250232.0);
    ErrorGrows(Scaled(x * b + y * a),
               s as real * 54030230586813971740093661.0 + c as real * 84147098480789650665250232.0,
               q as real, d, Grown(e) as real, Scaled(x) * Scaled(b) + Scaled(y) * Scaled(a),
               2.0 * u + 54030230586813971740093661.0 * d + 84147098480789650665250232.0 * d + 2.0 * d);
  }

  lemma Negated(x: real, s: int, e: nat)
    requires Near(x, s, e)
    ensures Near(-x, -s, e)
  {
  }

  lemma AddsAt(sine: nat -> real, cosine: nat -> real, n: nat)
    requires SineAndCosine(sine, cosine)
    ensures sine(n + 1) == Mixed(sine(n), cosine(n), sine(1), cosine(1))
    ensures cosine(n + 1) == Mixed(cosine(n), -sine(n), sine(1), cosine(1))
  {
    assert Adds(sine, cosine, n);
  }

  /** From n to n + 1. */
  lemma Turn(sine: nat -> real, cosine: nat -> real, n: nat, s: int, c: int, e: nat, s': int, c': int)
    requires SineAndCosine(sine, cosine) && Near(sine(n), s, e) && Near(cosine(n), c, e) && 32 <= e
    requires ByUnit(-1) <= s <= ByUnit(1) && ByUnit(-1) <= c <= ByUnit(1)
    requires Rounded(ByCosine(s) + BySine(c), s') && Rounded(ByCosine(c) + BySine(-s), c')
    ensures Near(sine(n + 1), s', Grown(e)) && Near(cosine(n + 1), c', Grown(e))
  {
    Opposite(s);
    hide SineAndCosine, Near, Grown, Rounded, ByUnit, BySine, ByCosine, Mixed;
    AtOne(sine, cosine);
    AddsAt(sine, cosine, n);
    Negated(sine(n), s, e);
    TurnOne(sine(n), cosine(n), sine(1), cosine(1), s, c, e, s');
    TurnOne(cosine(n), -sine(n), sine(1), cosine(1), c, -s, e, c');
  }

  lemma Opposite(s: int)
    requires ByUnit(-1) <= s <= ByUnit(1)
    ensures ByUnit(-1) <= -s <= ByUnit(1)
  {
  }

  // ----- the table -----

  function Abs(x: real): real {
    if x < 0.0 then -x else x
  }

  /** Entry j is the integer part of 4294967296 times the absolute value of the sine. */
  predicate IsEntry(sine: nat -> real, j: nat)
    requires j < 64
  {
    T(j) as int as real <= 4294967296.0 * Abs(sine(j + 1)) < T(j) as int as real + 1.0
  }

  /** m units, give or take e of them, fall between t and t + 1. */
  predicate Decides(m: int, e: nat, t: int) {
    ByUnit(t) <= 4294967296 * (m - e) && 4294967296 * (m + e) < ByUnit(t + 1)
  }

  lemma AbsNear(x: real, s: int, e: nat, m: int)
    requires Near(x, s, e) && m == (if s < 0 then -s else s) && e < m
    ensures (m - e) as real <= Scaled(Abs(x)) <= (m + e) as real
  {
  }

  lemma Decided(x: real, m: int, e: nat, t: int)
    requires (m - e) as real <= Scaled(x) <= (m + e) as real && Decides(m, e, t)
    ensures t as real <= 4294967296.0 * x < t as real + 1.0
  {
    assert ByUnit(t) as real == t as real * 100000000000000000000000000.0;
    assert ByUnit(t + 1) as real == (t as real + 1.0) * 100000000000000000000000000.0;
  }

  lemma Entry(sine: nat -> real, j: nat, s: int, e: nat, t: int)
    requires j < 64 && Near(sine(j + 1), s, e) && T(j) as int == t
    requires e < (if s < 0 then -s else s) && Decides(if s < 0 then -s else s, e, t)
    ensures IsEntry(sine, j)
  {
    hide T, Decides, Near, Abs, Scaled;
    var m := if s < 0 then -s else s;
    AbsNear(sine(j + 1), s, e, m);
    Decided(Abs(sine(j + 1)), m, e, t);
  }

  /** Entry n - 1 from what is known of n, and what is known of n + 1. */
  lemma Step(sine: nat -> real, cosine: nat -> real, n: nat, s: int, c: int, e: nat, t: bv32, s': int,
             c': int)
    returns (more: nat)
    requires 1 <= n <= 64 && SineAndCosine(sine, cosine) && Near(sine(n), s, e) && Near(cosine(n), c, e) && 32 <= e
    requires T(n - 1) == t && e < (if s < 0 then -s else s) && Decides(if s < 0 then -s else s, e, t as int)
    requires ByUnit(-1) <= s <= ByUnit(1) && ByUnit(-1) <= c <= ByUnit(1)
    requires Rounded(ByCosine(s) + BySine(c), s') && Rounded(ByCosine(c) + BySine(-s), c')
    ensures IsEntry(sine, n - 1) && Near(sine(n + 1), s', more) && Near(cosine(n + 1), c', more) && more == Grown(e)
  {
    hide SineAndCosine, Near, Decides, Rounded, ByUnit, ByCosine, BySine, T, IsEntry, Grown;
    Entry(sine, n - 1, s, e, t as int);
    Turn(sine, cosine, n, s, c, e, s', c');
    more := Grown(e);
  }

  lemma NearMore(x: real, v: int, e: nat, d: nat)
    requires Near(x, v, e) && e <= d
    ensures Near(x, v, d)
  {
  }

  lemma Entries0(sine: nat -> real, cosine: nat -> real)
    requires SineAndCosine(sine, cosine)
    ensures forall j :: 0 <= j < 4 ==> IsEntry(sine, j)
    ensures Near(sine(5), -95892427466313846889315441, 162)
    ensures Near(cosine(5), 28366218546322626446663915, 162)
  {
    hide SineAndCosine, Near, IsEntry, Scaled;
    AtOne(sine, cosine);
    NearMore(sine(1), SINE1, 1, 32);
    NearMore(cosine(1), COSINE1, 1, 32);
    var e := 32;
    e := Step(sine, cosine, 1, 84147098480789650665250232, 54030230586813971740093661, e,
              0xD76AA478, 90929742682568169539601987, -41614683654714238699756822);
    e := Step(sine, cosine, 2, 90929742682568169539601987, -41614683654714238699756822, e,
              0xE8C7B756, 14112000805986722210074482, -98999249660044545727157279);
    e := Step(sine, cosine, 3, 14112000805986722210074482, -98999249660044545727157279, e,
              0x242070DB, -75680249530792825137263908, -65364362086361191463916820);
    e := Step(sine, cosine, 4, -75680249530792825137263908, -65364362086361191463916820, e,
              0xC1BDCEEE, -95892427466313846889315441, 28366218546322626446663915);
  }

  lemma Entries4(sine: nat -> real, cosine: nat -> real)
    requires SineAndCosine(sine, cosine)
    ensures forall j :: 4 <= j < 8 ==> IsEntry(sine, j)
    ensures Near(sine(9), 41211848524175656975627260, 822)
    ensures Near(cosine(9), -91113026188467698836829469, 822)
  {
    hide SineAndCosine, Near, IsEntry, Scaled;
    Entries0(sine, cosine);
    var e := 162;
    e := Step(sine, cosine, 5, -95892427466313846889315441, 28366218546322626446663915, e,
              0xF57C0FAF, -27941549819892587281155547, 96017028665036602054565229);
    e := Step(sine, cosine, 6, -27941549819892587281155547, 96017028665036602054565229, e,
              0x4787C62A, 65698659871878909039699907, 75390225434330463814119754);
    e := Step(sine, cosine, 7, 65698659871878909039699907, 75390225434330463814119754, e,
              0xA8304613, 98935824662338177780812360, -14550003380861352586884135);
    e := Step(sine, cosine, 8, 98935824662338177780812360, -14550003380861352586884135, e,
              0xFD469501, 41211848524175656975627260, -91113026188467698836829469);
  }

  lemma Entries8(sine: nat -> real, cosine: nat -> real)
    requires SineAndCosine(sine, cosine)
    ensures forall j :: 8 <= j < 12 ==> IsEntry(sine, j)
    ensures Near(sine(13), 42016703682664092186895498, 4163)
    ensures Near(cosine(13), 90744678145019621385268618, 4163)
  {
    hide SineAndCosine, Near, IsEntry, Scaled;
    Entries4(sine, cosine);
    var e := 822;
    e := Step(sine, cosine, 9, 41211848524175656975627260, -91113026188467698836829469, e,
              0x698098D8, -54402111088936981340474762, -83907152907645245225886397);
    e := Step(sine, cosine, 10, -54402111088936981340474762, -83907152907645245225886397, e,
              0x8B44F7AF, -99999020655070345705156490, 442569798805078574835497);
    e := Step(sine, cosine, 11, -99999020655070345705156490, 442569798805078574835497, e,
              0xFFFF5BB1, -53657291800043497166537428, 84385395873249210465395526);
    e := Step(sine, cosine, 12, -53657291800043497166537428, 84385395873249210465395526, e,
              0x895CD7BE, 42016703682664092186895498, 90744678145019621385268618);
  }

  lemma Entries12(sine: nat -> real, cosine: nat -> real)
    requires SineAndCosine(sine, cosine)
    ensures forall j :: 12 <= j < 16 ==> IsEntry(sine, j)
    ensures Near(sine(17), -96139749187955685726163692, 21078)
    ensures Near(cosine(17), -27516333805159692222034273, 21078)
  {
    hide SineAndCosine, Near, IsEntry, Scaled;
    Entries8(sine, cosine);
    var e := 4163;
    e := Step(sine, cosine, 13, 42016703682664092186895498, 90744678145019621385268618, e,
              0x6B901122, 99060735569487030787535479, 13673721820783359424892894);
    e := Step(sine, cosine, 14, 99060735569487030787535479, 13673721820783359424892894, e,
              0xFD987193, 65028784015711686582974032, -75968791285882127384814636);
    e := Step(sine, cosine, 15, 65028784015711686582974032, -75968791285882127384814636, e,
              0xA679438E, -28790331666506529478445618, -95765948032338464189963725);
    e := Step(sine, cosine, 16, -28790331666506529478445618, -95765948032338464189963725, e,
              0x49B40821, -96139749187955685726163692, -27516333805159692222034273);
  }

  lemma Entries16(sine: nat -> real, cosine: nat -> real)
    requires SineAndCosine(sine, cosine)
    ensures forall j :: 16 <= j < 20 ==> IsEntry(sine, j)
    ensures Near(sine(21), 83665563853605603186648081, 106709)
    ensures Near(cosine(21), -54772926022426842138427106, 106709)
  {
    hide SineAndCosine, Near, IsEntry, Scaled;
    Entries12(sine, cosine);
    var e := 21078;
    e := Step(sine, cosine, 17, -96139749187955685726163692, -27516333805159692222034273, e,
              0xF61E2562, -75098724677167610375015613, 66031670824408014481609998);
    e := Step(sine, cosine, 18, -75098724677167610375015613, 66031670824408014481609998, e,
              0xC040B340, 14987720966295232975423924, 98870461818666925289835286);
    e := Step(sine, cosine, 19, 14987720966295232975423924, 98870461818666925289835286, e,
              0x265E5A51, 91294525072762765437609994, 40808206181339198606226793);
    e := Step(sine, cosine, 20, 91294525072762765437609994, 40808206181339198606226793, e,
              0xE9B6C7AA, 83665563853605603186648081, -54772926022426842138427106);
  }

  lemma Entries20(sine: nat -> real, cosine: nat -> real)
    requires SineAndCosine(sine, cosine)
    ensures forall j :: 20 <= j < 24 ==> IsEntry(sine, j)
    ensures Near(sine(25), -13235175009777302890200519, 540216)
    ensures Near(cosine(25), 99120281186347359808329470, 540216)
  {
    hide SineAndCosine, Near, IsEntry, Scaled;
    Entries16(sine, cosine);
    var e := 106709;
    e := Step(sine, cosine, 21, 83665563853605603186648081, -54772926022426842138427106, e,
              0xD62F105D, -885130929040387592169017, -99996082639463712645417473);
    e := Step(sine, cosine, 22, -885130929040387592169017, -99996082639463712645417473, e,
              0x02441453, -84622040417517063524132622, -53283302033339755521575773);
    e := Step(sine, cosine, 23, -84622040417517063524132622, -53283302033339755521575773, e,
              0xD8A1E681, -90557836200662384513579339, 42417900733699697593705086);
    e := Step(sine, cosine, 24, -90557836200662384513579339, 42417900733699697593705086, e,
              0xE7D3FBC8, -13235175009777302890200519, 99120281186347359808329470);
  }

  lemma Entries24(sine: nat -> real, cosine: nat -> real)
    requires SineAndCosine(sine, cosine)
    ensures forall j :: 24 <= j < 28 ==> IsEntry(sine, j)
    ensures Near(sine(29), -66363388421296750215117325, 2734844)
    ensures Near(cosine(29), -74805752968900035176519186, 2734844)
  {
    hide SineAndCosine, Near, IsEntry, Scaled;
    Entries20(sine, cosine);
    var e := 540216;
    e := Step(sine, cosine, 25, -13235175009777302890200519, 99120281186347359808329470, e,
              0x21E1CDE6, 76255845047960273751582322, 64691932232864034272138397);
    e := Step(sine, cosine, 26, 76255845047960273751582322, 64691932232864034272138397, e,
              0xC33707D6, 95637592840450301343234058, -29213880873383619337140473);
    e := Step(sine, cosine, 27, 95637592840450301343234058, -29213880873383619337140473, e,
              0xF4D50D87, 27090578830786901998634320, -96260586631356660197545302);
    e := Step(sine, cosine, 28, 27090578830786901998634320, -96260586631356660197545302, e,
              0x455A14ED, -66363388421296750215117325, -74805752968900035176519186);
  }

  lemma Entries28(sine: nat -> real, cosine: nat -> real)
    requires SineAndCosine(sine, cosine)
    ensures forall j :: 28 <= j < 32 ==> IsEntry(sine, j)
    ensures Near(sine(33), 99991186010726714572808438, 13845149)
    ensures Near(cosine(33), -1327674722305947891521990, 13845149)
  {
    hide SineAndCosine, Near, IsEntry, Scaled;
    Entries24(sine, cosine);
    var e := 2734844;
    e := Step(sine, cosine, 29, -66363388421296750215117325, -74805752968900035176519186, e,
              0xA9E3E905, -98803162409286178998774892, 15425144988758405071866203);
    e := Step(sine, cosine, 30, -98803162409286178998774892, 15425144988758405071866203, e,
              0xFCEFA3F8, -40403764532306500604877101, 91474235780453127896243577);
    e := Step(sine, cosine, 31, -40403764532306500604877101, 91474235780453127896243577, e,
              0x676F02D9, 55142668124169055066155806, 83422336050651027221552654);
    e := Step(sine, cosine, 32, 55142668124169055066155806, 83422336050651027221552654, e,
              0x8D2A4C8A, 99991186010726714572808438, -1327674722305947891521990);
  }

  lemma Entries32(sine: nat -> real, cosine: nat -> real)
    requires SineAndCosine(sine, cosine)
    ensures forall j :: 32 <= j < 36 ==> IsEntry(sine, j)
    ensures Near(sine(37), -64353813335699946068567012, 70091069)
    ensures Near(cosine(37), 76541405194534335649108120, 70091069)
  {
    hide SineAndCosine, Near, IsEntry, Scaled;
    Entries28(sine, cosine);
    var e := 13845149;
    e := Step(sine, cosine, 33, 99991186010726714572808438, -1327674722305947891521990, e,
              0xFFFA3942, 52908268612002382083248725, -84857027478460518659997202);
    e := Step(sine, cosine, 34, 52908268612002382083248725, -84857027478460518659997202, e,
              0x8771F681, -42818266949615100440675277, -90369220509150675984730463);
    e := Step(sine, cosine, 35, -42818266949615100440675277, -90369220509150675984730463, e,
              0x6D9D6122, -99177885344311573683528895, -12796368962740468102832811);
    e := Step(sine, cosine, 36, -99177885344311573683528895, -12796368962740468102832811, e,
              0xFDE5380C, -64353813335699946068567012, 76541405194534335649108120);
  }

  lemma Entries36(sine: nat -> real, cosine: nat -> real)
    requires SineAndCosine(sine, cosine)
    ensures forall j :: 36 <= j < 40 ==> IsEntry(sine, j)
    ensures Near(sine(41), -15862266880470898710331686, 354836039)
    ensures Near(cosine(41), -98733927752382645822882514, 354836039)
  {
    hide SineAndCosine, Near, IsEntry, Scaled;
    Entries32(sine, cosine);
    var e := 70091069;
    e := Step(sine, cosine, 37, -64353813335699946068567012, 76541405194534335649108120, e,
              0xA4BEEA44, 29636857870938531739229651, 95507364404729485758653627);
    e := Step(sine, cosine, 38, 29636857870938531739229651, 95507364404729485758653627, e,
              0x4BDECFA9, 96379538628408775326066492, 26664293235993725152682593);
    e := Step(sine, cosine, 39, 96379538628408775326066492, 26664293235993725152682593, e,
              0xF6BB4B60, 74511316047934878698770949, -66693806165226184438409266);
    e := Step(sine, cosine, 40, 74511316047934878698770949, -66693806165226184438409266, e,
              0xBEBFBC70, -15862266880470898710331686, -98733927752382645822882514);
  }

  lemma Entries40(sine: nat -> real, cosine: nat -> real)
    requires SineAndCosine(sine, cosine)
    ensures forall j :: 40 <= j < 44 ==> IsEntry(sine, j)
    ensures Near(sine(45), 85090352453411842486237957, 1796357451)
    ensures Near(cosine(45), 52532198881772969604746454, 1796357451)
  {
    hide SineAndCosine, Near, IsEntry, Scaled;
    Entries36(sine, cosine);
    var e := 354836039;
    e := Step(sine, cosine, 41, -15862266880470898710331686, -98733927752382645822882514, e,
              0x289B7EC6, -91652154791563378589898908, -39998531498835129395470747);
    e := Step(sine, cosine, 42, -91652154791563378589898908, -39998531498835129395470747, e,
              0xEAA127FA, -83177474262859828820957833, 55511330152062567704487930);
    e := Step(sine, cosine, 43, -83177474262859828820957833, 55511330152062567704487930, e,
              0xD4EF3085, 1770192510541357780795389, 99984330864769122006900900);
    e := Step(sine, cosine, 44, 1770192510541357780795389, 99984330864769122006900900, e,
              0x04881D05, 85090352453411842486237957, 52532198881772969604746454);
  }

  lemma Entries44(sine: nat -> real, cosine: nat -> real)
    requires SineAndCosine(sine, cosine)
    ensures forall j :: 44 <= j < 48 ==> IsEntry(sine, j)
    ensures Near(sine(49), -95375265275947181836042359, 9094059599)
    ensures Near(cosine(49), 30059254374363708368702583, 9094059599)
  {
    hide SineAndCosine, Near, IsEntry, Scaled;
    Entries40(sine, cosine);
    var e := 1796357451;
    e := Step(sine, cosine, 45, 85090352453411842486237957, 52532198881772969604746454, e,
              0xD9D4D039, 90178834764880918503329310, -43217794488477829495277636);
    e := Step(sine, cosine, 46, 90178834764880918503329310, -43217794488477829495277636, e,
              0xE6DB99E5, 12357312274522400406152952, -99233546915092871827975238);
    e := Step(sine, cosine, 47, 12357312274522400406152952, -99233546915092871827975238, e,
              0x1FA27CF8, -76825466132366679904496554, -64014433946919973131294154);
    e := Step(sine, cosine, 48, -76825466132366679904496554, -64014433946919973131294154, e,
              0xC4AC5665, -95375265275947181836042359, 30059254374363708368702583);
  }

  lemma Entries48(sine: nat -> real, cosine: nat -> real)
    requires SineAndCosine(sine, cosine)
    ensures forall j :: 48 <= j < 52 ==> IsEntry(sine, j)
    ensures Near(sine(53), 39592515018183418150338630, 46038676724)
    ensures Near(cosine(53), -91828278621211889119972623, 46038676724)
  {
    hide SineAndCosine, Near, IsEntry, Scaled;
    Entries44(sine, cosine);
    var e := 9094059599;
    e := Step(sine, cosine, 49, -95375265275947181836042359, 30059254374363708368702583, e,
              0xF4292244, -26237485370392878591439381, 96496602849211327406895699);
    e := Step(sine, cosine, 50, -26237485370392878591439381, 96496602849211327406895699, e,
              0x432AFF97, 67022917584337473449434493, 74215419681378253946737728);
    e := Step(sine, cosine, 51, 67022917584337473449434493, 74215419681378253946737728, e,
              0xAB9423A7, 98662759204048529658756894, -16299078079570548100332963);
    e := Step(sine, cosine, 52, 98662759204048529658756894, -16299078079570548100332963, e,
              0xFC93A039, 39592515018183418150338630, -91828278621211889119972623);
  }

  lemma Entries52(sine: nat -> real, cosine: nat -> real)
    requires SineAndCosine(sine, cosine)
    ensures forall j :: 52 <= j < 56 ==> IsEntry(sine, j)
    ensures Near(sine(57), 43616475524782495908053461, 233070800916)
    ensures Near(cosine(57), 89986682696919378650300048, 233070800916)
  {
    hide SineAndCosine, Near, IsEntry, Scaled;
    Entries48(sine, cosine);
    var e := 46038676724;
    e := Step(sine, cosine, 53, 39592515018183418150338630, -91828278621211889119972623, e,
              0x655B59C3, -55878904885161624581787115, -82930983286315014772785013);
    e := Step(sine, cosine, 54, -55878904885161624581787115, -82930983286315014772785013, e,
              0x8F0CCC92, -99975517335861983659863167, 2212675626195573456356407);
    e := Step(sine, cosine, 55, -99975517335861983659863167, 2212675626195573456356407, e,
              0xFFEFF47D, -52155100208691188018741018, 85322010772258411396968112);
    e := Step(sine, cosine, 56, -52155100208691188018741018, 85322010772258411396968112, e,
              0x85845DD1, 43616475524782495908053461, 89986682696919378650300048);
  }

  lemma Entries56(sine: nat -> real, cosine: nat -> real)
    requires SineAndCosine(sine, cosine)
    ensures forall j :: 56 <= j < 60 ==> IsEntry(sine, j)
    ensures Near(sine(61), -96611777000839294701828793, 1179920929638)
    ensures Near(cosine(61), -25810163593826744570120754, 1179920929638)
  {
    hide SineAndCosine, Near, IsEntry, Scaled;
    Entries52(sine, cosine);
    var e := 233070800916;
    e := Step(sine, cosine, 57, 43616475524782495908053461, 89986682696919378650300048, e,
              0x6FA87E4F, 99287264808453711816508813, 11918013544881928543584381);
    e := Step(sine, cosine, 58, 99287264808453711816508813, 11918013544881928543584381, e,
              0xFE2CE6E0, 63673800713913788077123364, -77108022297584522938743516);
    e := Step(sine, cosine, 59, 63673800713913788077123364, -77108022297584522938743516, e,
              0xA3014314, -30481062110221670562564927, -95241298041515629269381665);
    e := Step(sine, cosine, 60, -30481062110221670562564927, -95241298041515629269381665, e,
              0x4E0811A1, -96611777000839294701828793, -25810163593826744570120754);
  }

  lemma Entries60(sine: nat -> real, cosine: nat -> real)
    requires SineAndCosine(sine, cosine)
    ensures forall j :: 60 <= j < 64 ==> IsEntry(sine, j)
    ensures Near(sine(65), 82682867949010346771021281, 5973349706294)
    ensures Near(cosine(65), -56245385123817203106212163, 5973349706294)
  {
    hide SineAndCosine, Near, IsEntry, Scaled;
    Entries56(sine, cosine);
    var e := 1179920929638;
    e := Step(sine, cosine, 61, -96611777000839294701828793, -25810163593826744570120754, e,
              0xF7537E82, -73918069664922286727601707, 67350716232358625288783325);
    e := Step(sine, cosine, 62, -73918069664922286727601707, 67350716232358625288783325, e,
              0xBD3AF235, 16735570030280692152783816, 98589658158254969743863579);
    e := Step(sine, cosine, 63, 16735570030280692152783816, 98589658158254969743863579, e,
              0x2AD7D2BB, 92002603819679068335153652, 39185723042955000516171006);
    e := Step(sine, cosine, 64, 92002603819679068335153652, 39185723042955000516171006, e,
              0xEB86D391, 82682867949010346771021281, -56245385123817203106212163);
  }

  /** The whole table. */
  lemma TableIsSine(sine: nat -> real, cosine: nat -> real, j: nat)
    requires SineAndCosine(sine, cosine) && j < 64
    ensures T(j) as int as real <= 4294967296.0 * Abs(sine(j + 1)) < T(j) as int as real + 1.0
  {
    hide SineAndCosine, T, Abs, Near;
    Entries0(sine, cosine);
    Entries4(sine, cosine);
    Entries8(sine, cosine);
    Entries12(sine, cosine);
    Entries16(sine, cosine);
    Entries20(sine, cosine);
    Entries24(sine, cosine);
    Entries28(sine, cosine);
    Entries32(sine, cosine);
    Entries36(sine, cosine);
    Entries40(sine, cosine);
    Entries44(sine, cosine);
    Entries48(sine, cosine);
    Entries52(sine, cosine);
    Entries56(sine, cosine);
    Entries60(sine, cosine);
    assert IsEntry(sine, j);
  }
}
