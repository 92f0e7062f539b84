/** A preference file as a value: sections with keys and comments, and how it is printed. */
module PrefTree {

  datatype SecItem = KeyVal(key: string, value: string) | SecComment(text: string)

  datatype PrefItem = Sec(name: string, items: seq<SecItem>) | PrefComment(text: string)

  type Tree = seq<PrefItem>

  // ----- printing -----

  function PrintSecItem(it: SecItem): string {
    match it
    case KeyVal(k, v) => k + " = " + v + "\n"
    case SecComment(c) => "###" + c + "\n"
  }

  function PrintItems(items: seq<SecItem>): string {
    if items == [] then "" else PrintSecItem(items[0]) + PrintItems(items[1..])
  }

  function PrintItem(it: PrefItem): string {
    match it
    case Sec(n, items) => "[" + n + "]\n" + PrintItems(items) + "\n"
    case PrefComment(c) => "###" + c + "\n"
  }

  function PrintTree(t: Tree): string {
    if t == [] then "\n" else PrintItem(t[0]) + "\n" + PrintTree(t[1..])
  }

  lemma {:induction false} PrintItemsEnd(items: seq<SecItem>, it: SecItem)
    ensures PrintItems(items + [it]) == PrintItems(items) + PrintSecItem(it)
  {
    var all := items + [it];
    if items == [] {
      assert all[1..] == [] && PrintSecItem(it) + "" == PrintSecItem(it);
    } else {
      assert all[1..] == items[1..] + [it];
      PrintItemsEnd(items[1..], it);
      assert PrintSecItem(items[0]) + (PrintItems(items[1..]) + PrintSecItem(it))
          == (PrintSecItem(items[0]) + PrintItems(items[1..])) + PrintSecItem(it);
    }
  }

  /** The lines of a file: comments behind three hashes, headings in brackets, settings around an equals sign with a
      blank on either side. */
  lemma PrintedLines(t: Tree, text: string, name: string, items: seq<SecItem>, key: string, value: string)
    ensures PrintTree([]) == "\n"
    ensures PrintTree([PrefComment(text)] + t) == "###" + text + "\n" + "\n" + PrintTree(t)
    ensures PrintTree([Sec(name, items)] + t) == "[" + name + "]\n" + PrintItems(items) + "\n" + "\n" + PrintTree(t)
    ensures PrintItems([]) == ""
    ensures PrintItems(items + [SecComment(text)]) == PrintItems(items) + ("###" + text + "\n")
    ensures PrintItems(items + [KeyVal(key, value)]) == PrintItems(items) + (key + " = " + value + "\n")
  {
    assert ([PrefComment(text)] + t)[1..] == t && ([Sec(name, items)] + t)[1..] == t;
    PrintItemsEnd(items, SecComment(text));
    PrintItemsEnd(items, KeyVal(key, value));
  }

  // ----- what one pass through the printer does to the comments -----

  function BumpItem(it: SecItem): SecItem {
    match it
    case KeyVal(k, v) => it
    case SecComment(c) => SecComment("###" + c)
  }

  function BumpItems(items: seq<SecItem>): (r: seq<SecItem>)
    ensures |r| == |items|
  {
    if items == [] then [] else [BumpItem(items[0])] + BumpItems(items[1..])
  }

  function BumpPref(it: PrefItem): PrefItem {
    match it
    case Sec(n, items) => Sec(n, BumpItems(items))
    case PrefComment(c) => PrefComment("###" + c)
  }

  function Bump(t: Tree): (r: Tree)
    ensures |r| == |t|
  {
    if t == [] then [] else [BumpPref(t[0])] + Bump(t[1..])
  }

  // ----- trees that survive the trip through a file -----

  predicate IsKeyChar(c: char) {
    'a' <= c <= 'z' || 'A' <= c <= 'Z' || '0' <= c <= '9' || c == '_' || c == '-'
  }

  lemma KeyCharacters(c: char)
    ensures var n := c as int;
      IsKeyChar(c) <==> n == 45 || 48 <= n <= 57 || 65 <= n <= 90 || n == 95 || 97 <= n <= 122
  {
  }

  predicate IsBlank(c: char) {
    c == ' ' || c == '\t'
  }

  predicate Free(s: string, c: char) {
    forall i :: 0 <= i < |s| ==> s[i] != c
  }

  predicate OneLine(s: string) {
    Free(s, '\n') && Free(s, '\0')
  }

  predicate WellFormedItem(it: SecItem) {
    match it
    case KeyVal(k, v) =>
      k != "" && (forall i :: 0 <= i < |k| ==> IsKeyChar(k[i])) && v != "" && !IsBlank(v[0]) && OneLine(v)
    case SecComment(c) => OneLine(c)
  }

  predicate WellFormedPref(it: PrefItem) {
    match it
    case Sec(n, items) =>
      n != "" && OneLine(n) && Free(n, ']') && forall i :: 0 <= i < |items| ==> WellFormedItem(items[i])
    case PrefComment(c) => OneLine(c)
  }

  /** Top-level comments stand before the first section. */
  predicate CommentsFirst(t: Tree) {
    forall i, j :: 0 <= i < j < |t| && t[i].Sec? ==> t[j].Sec?
  }

  predicate WellFormed(t: Tree) {
    CommentsFirst(t) && forall i :: 0 <= i < |t| ==> WellFormedPref(t[i])
  }

  // ----- what a file cannot hold of a value -----

  /** Blanks in front of a value are taken for those behind the equals sign. */
  function TrimValue(v: string): (r: string)
    ensures r == "" || !IsBlank(r[0])
    ensures |r| <= |v| && r == v[|v| - |r|..] && forall i :: 0 <= i < |v| - |r| ==> IsBlank(v[i])
  {
    if v != "" && IsBlank(v[0]) then TrimValue(v[1..]) else v
  }

  function TrimItem(it: SecItem): SecItem {
    match it
    case KeyVal(k, v) => KeyVal(k, TrimValue(v))
    case SecComment(c) => it
  }

  function TrimItems(items: seq<SecItem>): (r: seq<SecItem>)
    ensures |r| == |items|
  {
    if items == [] then [] else [TrimItem(items[0])] + TrimItems(items[1..])
  }

  function TrimPref(it: PrefItem): PrefItem {
    match it
    case Sec(n, items) => Sec(n, TrimItems(items))
    case PrefComment(c) => it
  }

  function Trim(t: Tree): (r: Tree)
    ensures |r| == |t|
  {
    if t == [] then [] else [TrimPref(t[0])] + Trim(t[1..])
  }

  /** Nothing is trimmed from well-formed entries. */
  lemma {:induction false} TrimItemsWellFormed(items: seq<SecItem>)
    requires forall i :: 0 <= i < |items| ==> WellFormedItem(items[i])
    ensures TrimItems(items) == items
  {
    if items != [] {
      assert WellFormedItem(items[0]);
      TrimItemsWellFormed(items[1..]);
    }
  }

  lemma {:induction false} TrimWellFormed(t: Tree)
    requires forall i :: 0 <= i < |t| ==> WellFormedPref(t[i])
    ensures Trim(t) == t
  {
    if t != [] {
      assert WellFormedPref(t[0]);
      if t[0].Sec? {
        TrimItemsWellFormed(t[0].items);
      }
      TrimWellFormed(t[1..]);
    }
  }

  // ----- bumping keeps everything but comment text -----

  lemma {:induction false} BumpItemsAt(items: seq<SecItem>, i: nat)
    requires i < |items|
    ensures BumpItems(items)[i] == BumpItem(items[i])
  {
    if i > 0 {
      BumpItemsAt(items[1..], i - 1);
    }
  }

  lemma {:induction false} BumpAt(t: Tree, i: nat)
    requires i < |t|
    ensures Bump(t)[i] == BumpPref(t[i])
  {
    if i > 0 {
      BumpAt(t[1..], i - 1);
    }
  }

  lemma FreeHash(c: string, x: char)
    requires x != '#'
    ensures Free("###" + c, x) == Free(c, x)
  {
    var s := "###" + c;
    if Free(s, x) {
      forall i | 0 <= i < |c|
        ensures c[i] != x
      {
        assert s[i + 3] == c[i];
      }
    }
  }

  lemma BumpItemWellFormed(it: SecItem)
    ensures WellFormedItem(BumpItem(it)) == WellFormedItem(it)
  {
    if it.SecComment? {
      FreeHash(it.text, '\n');
      FreeHash(it.text, '\0');
    }
  }

  lemma BumpPrefWellFormed(it: PrefItem)
    ensures WellFormedPref(BumpPref(it)) == WellFormedPref(it)
  {
    match it
    case PrefComment(c) =>
      FreeHash(c, '\n');
      FreeHash(c, '\0');
    case Sec(n, items) =>
      forall i | 0 <= i < |items|
        ensures BumpItems(items)[i] == BumpItem(items[i])
        ensures WellFormedItem(BumpItems(items)[i]) == WellFormedItem(items[i])
      {
        BumpItemsAt(items, i);
        BumpItemWellFormed(items[i]);
      }
  }

  /** A bumped tree is well-formed exactly when the tree is. */
  lemma BumpWellFormed(t: Tree)
    ensures WellFormed(Bump(t)) == WellFormed(t)
  {
    forall i | 0 <= i < |t|
      ensures Bump(t)[i] == BumpPref(t[i]) && WellFormedPref(Bump(t)[i]) == WellFormedPref(t[i])
    {
      BumpAt(t, i);
      BumpPrefWellFormed(t[i]);
    }
    if CommentsFirst(Bump(t)) {
      forall i, j | 0 <= i < j < |t| && t[i].Sec?
        ensures t[j].Sec?
      {
        assert Bump(t)[i].Sec? && Bump(t)[j].Sec?;
      }
    }
  }
}
