/** Looking things up in a preference tree by linear search, and changing it. */
module PrefLookup {
  import opened Options
  import opened PrefTree

  predicate IsKey(it: SecItem, key: string) {
    it.KeyVal? && it.key == key
  }

  predicate IsSection(it: PrefItem, name: string) {
    it.Sec? && it.name == name
  }

  /** Position of the first entry for the key; the length if there is none. */
  function FindKey(items: seq<SecItem>, key: string): (n: nat)
    ensures n <= |items| && (n < |items| ==> IsKey(items[n], key))
    ensures forall i :: 0 <= i < n ==> !IsKey(items[i], key)
  {
    if items == [] || IsKey(items[0], key) then 0
    else
      var n := FindKey(items[1..], key);
      assert forall i :: 0 <= i < n ==> items[i + 1] == items[1..][i];
      assert forall i :: 1 <= i < n + 1 ==> items[i] == items[1..][i - 1];
      n + 1
  }

  function FindSection(t: Tree, name: string): (n: nat)
    ensures n <= |t| && (n < |t| ==> IsSection(t[n], name))
    ensures forall i :: 0 <= i < n ==> !IsSection(t[i], name)
  {
    if t == [] || IsSection(t[0], name) then 0
    else
      var n := FindSection(t[1..], name);
      assert forall i :: 1 <= i < n + 1 ==> t[i] == t[1..][i - 1];
      n + 1
  }

  function ValueOf(items: seq<SecItem>, key: string): Option<string> {
    var n := FindKey(items, key);
    if n < |items| then Some(items[n].value) else None
  }

  function Lookup(t: Tree, sec: string, key: string): Option<string> {
    var n := FindSection(t, sec);
    if n < |t| then ValueOf(t[n].items, key) else None
  }

  function WithValue(items: seq<SecItem>, key: string, value: string): seq<SecItem> {
    var n := FindKey(items, key);
    if n < |items| then items[n := KeyVal(key, value)] else items + [KeyVal(key, value)]
  }

  function WithSection(t: Tree, name: string): Tree {
    if FindSection(t, name) < |t| then t else t + [Sec(name, [])]
  }

  function WithSetting(t: Tree, sec: string, key: string, value: string): Tree {
    var u := WithSection(t, sec);
    var n := FindSection(u, sec);
    AddedFound(t, sec);
    u[n := Sec(sec, WithValue(u[n].items, key, value))]
  }

  lemma FoundFirst(items: seq<SecItem>, key: string, n: nat)
    requires n < |items| && IsKey(items[n], key) && forall i :: 0 <= i < n ==> !IsKey(items[i], key)
    ensures FindKey(items, key) == n
  {
  }

  lemma FoundNowhere(items: seq<SecItem>, key: string)
    requires forall i :: 0 <= i < |items| ==> !IsKey(items[i], key)
    ensures FindKey(items, key) == |items|
  {
  }

  lemma FoundFirstSection(t: Tree, name: string, n: nat)
    requires n < |t| && IsSection(t[n], name) && forall i :: 0 <= i < n ==> !IsSection(t[i], name)
    ensures FindSection(t, name) == n
  {
  }

  lemma FoundNoSection(t: Tree, name: string)
    requires forall i :: 0 <= i < |t| ==> !IsSection(t[i], name)
    ensures FindSection(t, name) == |t|
  {
  }

  lemma AddedFound(t: Tree, name: string)
    ensures var u := WithSection(t, name); FindSection(u, name) < |u|
    ensures FindSection(WithSection(t, name), name) == FindSection(t, name)
  {
    if FindSection(t, name) == |t| {
      FoundFirstSection(t + [Sec(name, [])], name, |t|);
    }
  }

  lemma ValueAfterSet(items: seq<SecItem>, key: string, value: string, key': string)
    ensures ValueOf(WithValue(items, key, value), key') == if key' == key then Some(value) else ValueOf(items, key')
  {
    var after, n, n' := WithValue(items, key, value), FindKey(items, key), FindKey(items, key');
    assert forall i :: 0 <= i < |items| && i != n ==> after[i] == items[i];
    if key' == key {
      FoundFirst(after, key, n);
    } else if n' < |items| {
      FoundFirst(after, key', n');
    } else {
      FoundNowhere(after, key');
    }
  }

  lemma FoundAfterSet(t: Tree, sec: string, key: string, value: string, sec': string)
    ensures var u, n' := WithSetting(t, sec, key, value), FindSection(t, sec');
      && (sec' == sec ==> FindSection(u, sec') == n' < |u|)
      && (sec' != sec && n' < |t| ==> FindSection(u, sec') == n' < |u| && u[n'] == t[n'])
      && (sec' != sec && n' == |t| ==> FindSection(u, sec') == |u|)
  {
    var u, n, n' := WithSetting(t, sec, key, value), FindSection(t, sec), FindSection(t, sec');
    AddedFound(t, sec);
    assert forall i :: 0 <= i < |t| && i != n ==> u[i] == t[i];
    assert u[n].Sec? && u[n].name == sec;
    if sec' == sec {
      FoundFirstSection(u, sec, n);
    } else if n' < |t| {
      FoundFirstSection(u, sec', n');
    } else {
      FoundNoSection(u, sec');
    }
  }

  /** Setting a value makes it the one looked up, and changes no other lookup. */
  lemma LookupAfterSet(t: Tree, sec: string, key: string, value: string, sec': string, key': string)
    ensures Lookup(WithSetting(t, sec, key, value), sec', key')
         == if sec' == sec && key' == key then Some(value) else Lookup(t, sec', key')
  {
    hide FindSection, FindKey, WithValue;
    FoundAfterSet(t, sec, key, value, sec');
    if sec' == sec {
      AddedFound(t, sec);
      var n := FindSection(t, sec);
      var before := WithSection(t, sec)[n].items;
      ValueAfterSet(before, key, value, key');
      NewSectionEmpty(t, sec, key');
    }
  }

  lemma NewSectionEmpty(t: Tree, sec: string, key: string)
    ensures var n := FindSection(t, sec);
      n < |WithSection(t, sec)| && WithSection(t, sec)[n].Sec?
      && ValueOf(WithSection(t, sec)[n].items, key) == Lookup(t, sec, key)
  {
    AddedFound(t, sec);
  }

  // ----- generated names -----

  function Digit(n: nat): char
    requires n < 10
  {
    '0' + n as char
  }

  function Decimal(n: nat): (s: string)
    ensures s != ""
  {
    if n < 10 then [Digit(n)] else Decimal(n / 10) + [Digit(n % 10)]
  }

  function Zeros(n: nat): string {
    if n == 0 then "" else "0" + Zeros(n - 1)
  }

  /** std::setfill('0') << std::setw(4) */
  function Padded(n: nat): string {
    var d := Decimal(n);
    if |d| < 4 then Zeros(4 - |d|) + d else d
  }

  function Numeral(s: string): int {
    if s == "" then 0 else 10 * Numeral(s[..|s| - 1]) + (s[|s| - 1] as int - '0' as int)
  }

  lemma {:induction false} NumeralOfDecimal(n: nat)
    ensures Numeral(Decimal(n)) == n
  {
    var s := Decimal(n);
    if n < 10 {
      assert s[..0] == "";
    } else {
      NumeralOfDecimal(n / 10);
      assert s[..|s| - 1] == Decimal(n / 10);
    }
  }

  lemma {:induction false} NumeralOfZeros(n: nat, s: string)
    ensures Numeral(Zeros(n) + s) == Numeral(s)
  {
    var z := Zeros(n) + s;
    if s == "" {
      assert z == Zeros(n);
      AllZeros(n);
    } else {
      assert z[..|z| - 1] == Zeros(n) + s[..|s| - 1];
      NumeralOfZeros(n, s[..|s| - 1]);
    }
  }

  lemma {:induction false} AllZeros(n: nat)
    ensures Numeral(Zeros(n)) == 0
  {
    if n > 0 {
      ZerosEnd(n - 1);
      assert Zeros(n)[..|Zeros(n)| - 1] == Zeros(n - 1);
      AllZeros(n - 1);
    }
  }

  lemma {:induction false} ZerosEnd(n: nat)
    ensures Zeros(n + 1) == Zeros(n) + "0"
  {
    if n > 0 {
      ZerosEnd(n - 1);
    }
  }

  predicate Digits(s: string) {
    forall i :: 0 <= i < |s| ==> '0' <= s[i] <= '9'
  }

  lemma {:induction false} ZerosAre(n: nat)
    ensures |Zeros(n)| == n && forall i :: 0 <= i < n ==> Zeros(n)[i] == '0'
  {
    if n > 0 {
      ZerosAre(n - 1);
    }
  }

  lemma {:induction false} DecimalDigits(n: nat)
    ensures Digits(Decimal(n)) && (Decimal(n)[0] == '0' ==> n == 0) && (n < 10 ==> |Decimal(n)| == 1)
    ensures n >= 10 ==> |Decimal(n)| == |Decimal(n / 10)| + 1
  {
    if n >= 10 {
      DecimalDigits(n / 10);
    }
  }

  lemma LongDecimal(n: nat)
    ensures n < 10000 <==> |Decimal(n)| <= 4
  {
    DecimalDigits(n);
    DecimalDigits(n / 10);
    DecimalDigits(n / 10 / 10);
    DecimalDigits(n / 10 / 10 / 10);
  }

  /** The counter in decimal digits, at least four of them, and no zero in front of more than four. */
  lemma PaddedIs(n: nat)
    ensures Digits(Padded(n)) && Numeral(Padded(n)) == n
    ensures if n < 10000 then |Padded(n)| == 4 else |Padded(n)| > 4 && Padded(n)[0] != '0'
  {
    var d := Decimal(n);
    NumeralOfDecimal(n);
    DecimalDigits(n);
    LongDecimal(n);
    if |d| < 4 {
      NumeralOfZeros(4 - |d|, d);
      ZerosAre(4 - |d|);
    }
  }

  /** Different counters give different names. */
  lemma PaddedInjective(m: nat, n: nat)
    ensures Padded(m) == Padded(n) ==> m == n
  {
    PaddedIs(m);
    PaddedIs(n);
  }

  lemma SuffixInjective(t: string, a: string, b: string)
    requires t + a == t + b
    ensures a == b
  {
    assert (t + a)[|t|..] == a && (t + b)[|t|..] == b;
  }

  lemma NamesInjective(template: string, m: nat, n: nat)
    ensures template + Padded(m) == template + Padded(n) ==> m == n
  {
    if template + Padded(m) == template + Padded(n) {
      SuffixInjective(template, Padded(m), Padded(n));
      PaddedInjective(m, n);
    }
  }

  function Names(template: string, n: nat): set<string> {
    set k: nat | k < n :: template + Padded(k)
  }

  /** The first n generated names are n different names. */
  lemma {:induction false} NamesCount(template: string, n: nat)
    ensures |Names(template, n)| == n
  {
    if n == 0 {
      assert Names(template, 0) == {};
    } else {
      NamesCount(template, n - 1);
      var candidate := template + Padded(n - 1);
      if candidate in Names(template, n - 1) {
        var k: nat :| k < n - 1 && template + Padded(k) == candidate;
        NamesInjective(template, k, n - 1);
        assert false;
      }
      assert Names(template, n) == Names(template, n - 1) + {candidate};
    }
  }

  lemma SubsetCount(a: set<string>, b: set<string>)
    requires a <= b
    ensures |a| <= |b|
  {
    assert b == a + (b - a);
  }

  /** Pigeonhole: when the first n names are all taken, n names are taken. */
  lemma Pigeonhole(template: string, n: nat, taken: set<string>)
    requires forall k: nat :: k < n ==> template + Padded(k) in taken
    ensures n <= |taken|
  {
    NamesCount(template, n);
    SubsetCount(Names(template, n), taken);
  }
}
