/** Printing a preference tree and parsing it again. */
module PrefRoundTrip {
  import opened PrefTree
  import opened PrefLookup
  import opened PrefScanner
  import opened PrefParser

  function Parse(text: string): Outcome {
    ParseInput(Lex(INITIAL, text), [])
  }

  // ----- scanning what was printed -----

  lemma {:induction false} SpanIs(cl: Class, a: string, b: string)
    requires AllIn(cl, a) && (b == "" || !In(cl, b[0]))
    ensures Span(cl, a + b) == |a|
  {
    if a == "" {
      assert a + b == b;
    } else {
      assert (a + b)[1..] == a[1..] + b;
      SpanIs(cl, a[1..], b);
    }
  }

  lemma LexNewline(st: Start, rest: string)
    requires st != SEC_NAME
    ensures Lex(st, "\n" + rest) == Lex(INITIAL, rest)
  {
    hide Lex, Span, CStr;
    LexStep(st, "\n" + rest);
    assert ("\n" + rest)[1..] == rest;
  }

  lemma LexComment(c: string, rest: string)
    requires OneLine(c)
    ensures Lex(INITIAL, "###" + c + "\n" + rest) == [Comment("###" + c)] + Lex(INITIAL, rest)
  {
    hide Lex;
    var a, b := "###" + c, "\n" + rest;
    var s := a + b;
    FreeHash(c, '\n');
    FreeHash(c, '\0');
    SpanIs(InLine, a, b);
    CStrWhole(a);
    assert s == "###" + c + "\n" + rest && s[..|a|] == a && s[|a|..] == b;
    LexStep(INITIAL, s);
    LexNewline(INITIAL, rest);
  }

  lemma LexName(n: string, rest: string)
    requires n != "" && OneLine(n) && Free(n, ']')
    ensures Lex(SEC_NAME, n + "]" + rest) == [SecName(n)] + Lex(INITIAL, "]" + rest)
  {
    hide Lex;
    var b := "]" + rest;
    var s := n + b;
    SpanIs(InName, n, b);
    CStrWhole(n);
    assert s == n + "]" + rest && s[..|n|] == n && s[|n|..] == b;
    LexStep(SEC_NAME, s);
  }

  lemma LexHeading(n: string, rest: string)
    requires n != "" && OneLine(n) && Free(n, ']')
    ensures Lex(INITIAL, "[" + n + "]\n" + rest) == [LeftBracket, SecName(n), RightBracket] + Lex(INITIAL, rest)
  {
    hide Lex;
    var s, tail := "[" + n + "]\n" + rest, "\n" + rest;
    assert s[1..] == n + "]" + tail;
    LexStep(INITIAL, s);
    LexName(n, tail);
    assert ("]" + tail)[1..] == tail;
    LexStep(INITIAL, "]" + tail);
    LexNewline(INITIAL, rest);
  }

  lemma LexValue(v: string, rest: string)
    requires v != "" && OneLine(v)
    ensures Lex(VALUE, v + "\n" + rest) == [Value(v)] + Lex(INITIAL, rest)
  {
    hide Lex;
    var b := "\n" + rest;
    var s := v + b;
    SpanIs(InLine, v, b);
    CStrWhole(v);
    assert s == v + "\n" + rest && s[..|v|] == v && s[|v|..] == b;
    LexStep(VALUE, s);
    LexNewline(VALUE, rest);
  }

  /** The blanks behind the equals sign are dropped, however many there are. */
  lemma LexEquals(b: string, v: string, rest: string)
    requires AllIn(Blank, b) && (v == "" || !IsBlank(v[0]))
    ensures Lex(INITIAL, "= " + b + v + "\n" + rest) == [Eq] + Lex(VALUE, v + "\n" + rest)
  {
    hide Lex;
    var s, tail := "= " + b + v + "\n" + rest, v + "\n" + rest;
    SpanIs(Blank, " " + b, tail);
    assert s[1..] == " " + b + tail && s[2 + |b|..] == tail;
    LexStep(INITIAL, s);
  }

  lemma LexKey(k: string, rest: string)
    requires k != "" && (forall i :: 0 <= i < |k| ==> IsKeyChar(k[i]))
    ensures Lex(INITIAL, k + " " + rest) == [Key(k)] + Lex(INITIAL, rest)
  {
    hide Lex;
    var b := " " + rest;
    var s := k + b;
    SpanIs(KeyChar, k, b);
    CStrWhole(k);
    assert s == k + " " + rest && s[..|k|] == k && s[|k|..] == b && b[1..] == rest;
    LexStep(INITIAL, s);
    LexStep(INITIAL, b);
  }

  function ItemTokens(it: SecItem): seq<Token> {
    match it
    case KeyVal(k, v) => [Key(k), Eq, Value(v)]
    case SecComment(c) => [Comment("###" + c)]
  }

  function ItemsTokens(items: seq<SecItem>): seq<Token> {
    if items == [] then [] else ItemTokens(items[0]) + ItemsTokens(items[1..])
  }

  function PrefTokens(it: PrefItem): seq<Token> {
    match it
    case Sec(n, items) => [LeftBracket, SecName(n), RightBracket] + ItemsTokens(items)
    case PrefComment(c) => [Comment("###" + c)]
  }

  function TreeTokens(t: Tree): seq<Token> {
    if t == [] then [] else PrefTokens(t[0]) + TreeTokens(t[1..])
  }

  lemma LexItem(it: SecItem, rest: string)
    requires WellFormedItem(TrimItem(it))
    ensures Lex(INITIAL, PrintSecItem(it) + rest) == ItemTokens(TrimItem(it)) + Lex(INITIAL, rest)
  {
    hide Lex, TrimValue;
    match it
    case SecComment(c) =>
      LexComment(c, rest);
    case KeyVal(k, v) =>
      var kept := TrimValue(v);
      var b := v[..|v| - |kept|];
      var tail := "= " + b + kept + "\n" + rest;
      LexKey(k, tail);
      LexEquals(b, kept, rest);
      LexValue(kept, rest);
      assert b + kept == v;
      assert PrintSecItem(it) + rest == k + " " + tail;
  }

  lemma {:induction false} LexItems(items: seq<SecItem>, rest: string)
    requires forall i :: 0 <= i < |items| ==> WellFormedItem(TrimItems(items)[i])
    ensures Lex(INITIAL, PrintItems(items) + rest) == ItemsTokens(TrimItems(items)) + Lex(INITIAL, rest)
  {
    hide Lex, PrintSecItem, ItemTokens, WellFormedItem, TrimItem;
    if items == [] {
      assert PrintItems(items) + rest == rest;
    } else {
      var tail, first, more := PrintItems(items[1..]) + rest, TrimItem(items[0]), TrimItems(items[1..]);
      assert TrimItems(items)[0] == first && TrimItems(items)[1..] == more;
      assert forall i :: 0 <= i < |more| ==> more[i] == TrimItems(items)[i + 1];
      assert PrintItems(items) + rest == PrintSecItem(items[0]) + tail;
      LexItem(items[0], tail);
      LexItems(items[1..], rest);
      assert ItemTokens(first) + (ItemsTokens(more) + Lex(INITIAL, rest))
        == ItemsTokens(TrimItems(items)) + Lex(INITIAL, rest);
    }
  }

  lemma LexPref(it: PrefItem, rest: string)
    requires WellFormedPref(TrimPref(it))
    ensures Lex(INITIAL, PrintItem(it) + rest) == PrefTokens(TrimPref(it)) + Lex(INITIAL, rest)
  {
    hide Lex, WellFormedItem, TrimItems;
    match it
    case PrefComment(c) =>
      LexComment(c, rest);
    case Sec(n, items) =>
      var tail := PrintItems(items) + ("\n" + rest);
      assert PrintItem(it) + rest == "[" + n + "]\n" + tail;
      LexHeading(n, tail);
      LexItems(items, "\n" + rest);
      LexNewline(INITIAL, rest);
  }

  lemma {:induction false} LexTree(t: Tree)
    requires forall i :: 0 <= i < |t| ==> WellFormedPref(Trim(t)[i])
    ensures Lex(INITIAL, PrintTree(t)) == TreeTokens(Trim(t))
  {
    hide Lex, WellFormedPref, TrimPref, PrintItem, PrefTokens;
    if t == [] {
      LexNewline(INITIAL, "");
      LexNothing();
    } else {
      var rest, more := PrintTree(t[1..]), Trim(t[1..]);
      assert Trim(t)[0] == TrimPref(t[0]) && Trim(t)[1..] == more;
      assert forall i :: 0 <= i < |more| ==> more[i] == Trim(t)[i + 1];
      assert PrintTree(t) == PrintItem(t[0]) + ("\n" + rest);
      LexPref(t[0], "\n" + rest);
      LexNewline(INITIAL, rest);
      LexTree(t[1..]);
    }
  }

  lemma LexNothing()
    ensures Lex(INITIAL, "") == [] && "\n" + "" == "\n"
  {
  }

  // ----- parsing it -----

  lemma ParseItem(it: SecItem, ts: seq<Token>, done: Tree, name: string, items: seq<SecItem>)
    ensures ParseSection(ItemTokens(it) + ts, done, name, items) == ParseSection(ts, done, name, items + [BumpItem(it)])
  {
    var all := ItemTokens(it) + ts;
    assert all[|ItemTokens(it)|..] == ts;
  }

  lemma {:induction false} ParseItems(more: seq<SecItem>, ts: seq<Token>, done: Tree, name: string, items: seq<SecItem>)
    ensures ParseSection(ItemsTokens(more) + ts, done, name, items)
        == ParseSection(ts, done, name, items + BumpItems(more))
  {
    hide ParseSection;
    if more == [] {
      assert ItemsTokens(more) + ts == ts && items + BumpItems(more) == items;
    } else {
      var tail := ItemsTokens(more[1..]) + ts;
      assert ItemsTokens(more) + ts == ItemTokens(more[0]) + tail;
      ParseItem(more[0], tail, done, name, items);
      ParseItems(more[1..], ts, done, name, items + [BumpItem(more[0])]);
      assert items + [BumpItem(more[0])] + BumpItems(more[1..]) == items + BumpItems(more);
    }
  }

  lemma ParseHeading(n: string, ts: seq<Token>, done: Tree)
    ensures ParseInput([LeftBracket, SecName(n), RightBracket] + ts, done) == ParseSection(ts, done, n, [])
  {
    assert ([LeftBracket, SecName(n), RightBracket] + ts)[3..] == ts;
  }

  lemma ParseComment(c: string, ts: seq<Token>, done: Tree)
    ensures ParseInput([Comment(c)] + ts, done) == ParseInput(ts, done + [PrefComment(c)])
  {
    assert ([Comment(c)] + ts)[1..] == ts;
  }

  /** A section ends at the heading of the next one, or at the end of the file. */
  lemma ParseEnd(ts: seq<Token>, done: Tree, name: string, items: seq<SecItem>)
    requires ts == [] || ts[0] == LeftBracket
    ensures ParseSection(ts, done, name, items) == ParseInput(ts, done + [Sec(name, items)])
  {
  }

  lemma NothingParsed(done: Tree)
    ensures ParseInput([], done) == Ok(done)
  {
  }

  lemma {:induction false} ParseTree(t: Tree, done: Tree)
    requires CommentsFirst(t)
    ensures ParseInput(TreeTokens(t), done) == Ok(done + Bump(t))
  {
    hide ParseInput, ParseSection;
    if t == [] {
      NothingParsed(done);
      assert done + Bump(t) == done;
    } else {
      var rest := TreeTokens(t[1..]);
      ParseTree(t[1..], done + [BumpPref(t[0])]);
      assert done + [BumpPref(t[0])] + Bump(t[1..]) == done + Bump(t);
      match t[0]
      case PrefComment(c) =>
        ParseComment("###" + c, rest, done);
      case Sec(n, items) =>
        assert TreeTokens(t) == [LeftBracket, SecName(n), RightBracket] + (ItemsTokens(items) + rest);
        ParseHeading(n, ItemsTokens(items) + rest, done);
        ParseItems(items, rest, done, n, []);
        assert [] + BumpItems(items) == BumpItems(items);
        NextIsHeading(t);
        ParseEnd(rest, done, n, BumpItems(items));
    }
  }

  lemma NextIsHeading(t: Tree)
    requires t != [] && t[0].Sec? && CommentsFirst(t)
    ensures TreeTokens(t[1..]) == [] || TreeTokens(t[1..])[0] == LeftBracket
  {
    if |t| > 1 {
      assert t[1..][0] == t[1] && t[1].Sec?;
      assert PrefTokens(t[1])[0] == LeftBracket;
    }
  }

  // ----- what the parser can deliver -----

  /** Token texts of a file without NULs are those of a well-formed tree. */
  predicate Good(t: Token) {
    match t
    case Comment(s) => OneLine(s)
    case Key(s) => s != "" && forall i :: 0 <= i < |s| ==> IsKeyChar(s[i])
    case Value(s) => s != "" && !IsBlank(s[0]) && OneLine(s)
    case SecName(s) => s != "" && OneLine(s) && Free(s, ']')
    case _ => true
  }

  lemma ApplyGood(st: Start, s: string)
    requires s != "" && Free(s, '\0') && (st == VALUE ==> !IsBlank(s[0]))
    ensures var r := Apply(st, s);
      (r.token.Some? ==> Good(r.token.value)) && (r.next == VALUE && r.len < |s| ==> !IsBlank(s[r.len]))
  {
    var r := Apply(st, s);
    var t := s[..r.len];
    CStrWhole(t);
    assert t[0] == s[0];
  }

  lemma {:induction false} LexGood(st: Start, s: string, i: nat)
    requires Free(s, '\0') && (st == VALUE && s != "" ==> !IsBlank(s[0])) && i < |Lex(st, s)|
    ensures Good(Lex(st, s)[i])
    decreases |s|
  {
    hide Good;
    var r := Apply(st, s);
    ApplyGood(st, s);
    if i >= |Emitted(r.token)| {
      LexGood(r.next, s[r.len..], i - |Emitted(r.token)|);
    }
  }

  function TextOf(t: Token): string {
    match t
    case Comment(s) => s
    case Key(s) => s
    case Value(s) => s
    case SecName(s) => s
    case _ => ""
  }

  lemma {:induction false} LexNulFree(st: Start, s: string, i: nat)
    requires i < |Lex(st, s)|
    ensures Free(TextOf(Lex(st, s)[i]), '\0')
    decreases |s|
  {
    var r := Apply(st, s);
    if i >= |Emitted(r.token)| {
      LexNulFree(r.next, s[r.len..], i - |Emitted(r.token)|);
    }
  }

  predicate NulFreeItem(it: SecItem) {
    match it
    case KeyVal(k, v) => Free(k, '\0') && Free(v, '\0')
    case SecComment(c) => Free(c, '\0')
  }

  predicate NulFreePref(it: PrefItem) {
    match it
    case Sec(n, items) => Free(n, '\0') && forall i :: 0 <= i < |items| ==> NulFreeItem(items[i])
    case PrefComment(c) => Free(c, '\0')
  }

  predicate NulFree(t: Tree) {
    forall i :: 0 <= i < |t| ==> NulFreePref(t[i])
  }

  /** Nothing the parser builds contains a NUL. */
  lemma {:induction false} InputNulFree(ts: seq<Token>, done: Tree)
    requires NulFree(done) && forall i :: 0 <= i < |ts| ==> Free(TextOf(ts[i]), '\0')
    ensures ParseInput(ts, done).Ok? ==> NulFree(ParseInput(ts, done).tree)
    decreases |ts|, 0
  {
    if ts != [] && ts[0].Comment? {
      InputNulFree(ts[1..], done + [PrefComment(ts[0].text)]);
    } else if |ts| >= 3 && ts[0].LeftBracket? && ts[1].SecName? && ts[2].RightBracket? {
      SectionNulFree(ts[3..], done, ts[1].text, []);
    }
  }

  lemma {:induction false} SectionNulFree(ts: seq<Token>, done: Tree, name: string, items: seq<SecItem>)
    requires NulFree(done) && NulFreePref(Sec(name, items)) && forall i :: 0 <= i < |ts| ==> Free(TextOf(ts[i]), '\0')
    ensures ParseSection(ts, done, name, items).Ok? ==> NulFree(ParseSection(ts, done, name, items).tree)
    decreases |ts|, 1
  {
    if ts != [] && ts[0].Comment? {
      SectionNulFree(ts[1..], done, name, items + [SecComment(ts[0].text)]);
    } else if ts != [] && ts[0].Key? {
      if |ts| >= 3 && ts[1].Eq? && ts[2].Value? {
        assert NulFreeItem(KeyVal(ts[0].text, ts[2].text));
        SectionNulFree(ts[3..], done, name, items + [KeyVal(ts[0].text, ts[2].text)]);
      }
    } else {
      InputNulFree(ts, done + [Sec(name, items)]);
    }
  }

  predicate HasSection(t: Tree) {
    exists i :: 0 <= i < |t| && t[i].Sec?
  }

  lemma AddPref(t: Tree, it: PrefItem)
    requires WellFormed(t) && WellFormedPref(it) && (it.PrefComment? ==> !HasSection(t))
    ensures WellFormed(t + [it])
    ensures HasSection(t + [it]) <==> HasSection(t) || it.Sec?
  {
    assert (t + [it])[|t|] == it;
    forall i | 0 <= i < |t|
      ensures (t + [it])[i] == t[i]
    {
    }
  }

  /** From good tokens the parser builds well-formed trees. */
  lemma {:induction false} InputWellFormed(ts: seq<Token>, done: Tree)
    requires WellFormed(done) && (forall i :: 0 <= i < |ts| ==> Good(ts[i]))
    requires HasSection(done) && ts != [] ==> !ts[0].Comment?
    ensures ParseInput(ts, done).Ok? ==> WellFormed(ParseInput(ts, done).tree)
    decreases |ts|, 0
  {
    hide WellFormed, HasSection;
    if ts != [] && ts[0].Comment? {
      assert Good(ts[0]);
      AddPref(done, PrefComment(ts[0].text));
      InputWellFormed(ts[1..], done + [PrefComment(ts[0].text)]);
    } else if |ts| >= 3 && ts[0].LeftBracket? && ts[1].SecName? && ts[2].RightBracket? {
      assert Good(ts[1]);
      SectionWellFormed(ts[3..], done, ts[1].text, []);
    }
  }

  lemma {:induction false} SectionWellFormed(ts: seq<Token>, done: Tree, name: string, items: seq<SecItem>)
    requires WellFormed(done) && WellFormedPref(Sec(name, items)) && (forall i :: 0 <= i < |ts| ==> Good(ts[i]))
    ensures ParseSection(ts, done, name, items).Ok? ==> WellFormed(ParseSection(ts, done, name, items).tree)
    decreases |ts|, 1
  {
    hide WellFormed, HasSection;
    if ts != [] && ts[0].Comment? {
      assert Good(ts[0]);
      SectionWellFormed(ts[1..], done, name, items + [SecComment(ts[0].text)]);
    } else if ts != [] && ts[0].Key? {
      if |ts| >= 3 && ts[1].Eq? && ts[2].Value? {
        assert Good(ts[0]) && Good(ts[2]);
        assert WellFormedItem(KeyVal(ts[0].text, ts[2].text));
        SectionWellFormed(ts[3..], done, name, items + [KeyVal(ts[0].text, ts[2].text)]);
      }
    } else {
      AddPref(done, Sec(name, items));
      InputWellFormed(ts, done + [Sec(name, items)]);
    }
  }

  /** What is read from a file without NULs is well-formed. */
  lemma ParsedWellFormed(text: string)
    requires Free(text, '\0')
    ensures Parse(text).Ok? ==> WellFormed(Parse(text).tree)
  {
    var ts := Lex(INITIAL, text);
    forall i | 0 <= i < |ts|
      ensures Good(ts[i])
    {
      LexGood(INITIAL, text, i);
    }
    InputWellFormed(ts, []);
  }

  lemma ParsedNulFree(text: string)
    ensures Parse(text).Ok? ==> NulFree(Parse(text).tree)
  {
    var ts := Lex(INITIAL, text);
    forall i | 0 <= i < |ts|
      ensures Free(TextOf(ts[i]), '\0')
    {
      LexNulFree(INITIAL, text, i);
    }
    InputNulFree(ts, []);
  }

  // ----- NULs in the printed text -----

  lemma FreeAppend(a: string, b: string, x: char)
    requires Free(a, x) && Free(b, x)
    ensures Free(a + b, x)
  {
  }

  lemma {:induction false} PrintItemsFree(items: seq<SecItem>)
    requires forall i :: 0 <= i < |items| ==> NulFreeItem(items[i])
    ensures Free(PrintItems(items), '\0')
  {
    if items != [] {
      assert NulFreeItem(items[0]);
      PrintItemsFree(items[1..]);
      FreeAppend(PrintSecItem(items[0]), PrintItems(items[1..]), '\0');
    }
  }

  lemma {:induction false} PrintTreeFree(t: Tree)
    requires NulFree(t)
    ensures Free(PrintTree(t), '\0')
  {
    if t != [] {
      assert NulFreePref(t[0]);
      if t[0].Sec? {
        PrintItemsFree(t[0].items);
      }
      PrintTreeFree(t[1..]);
      FreeAppend(PrintItem(t[0]) + "\n", PrintTree(t[1..]), '\0');
    }
  }

  lemma BumpNulFree(t: Tree)
    requires NulFree(Bump(t))
    ensures NulFree(t)
  {
    forall i | 0 <= i < |t|
      ensures NulFreePref(t[i])
    {
      BumpAt(t, i);
      assert NulFreePref(Bump(t)[i]);
      UnbumpNulFree(t[i]);
    }
  }

  lemma UnbumpNulFree(it: PrefItem)
    requires NulFreePref(BumpPref(it))
    ensures NulFreePref(it)
  {
    match it
    case PrefComment(c) => FreeHash(c, '\0');
    case Sec(n, items) =>
      forall i | 0 <= i < |items|
        ensures NulFreeItem(items[i])
      {
        BumpItemsAt(items, i);
        assert NulFreeItem(BumpItems(items)[i]);
        if items[i].SecComment? {
          FreeHash(items[i].text, '\0');
        }
      }
  }

  // ----- the round trip -----

  /** A tree that only needs trimming is read without complaint, but comes back trimmed. */
  lemma TrimmedRoundTrip(t: Tree)
    requires WellFormed(Trim(t))
    ensures Parse(PrintTree(t)) == Ok(Bump(Trim(t)))
  {
    hide Lex, ParseInput, WellFormed;
    WellFormedParts(Trim(t));
    LexTree(t);
    ParseTree(Trim(t), []);
    assert [] + Bump(Trim(t)) == Bump(Trim(t));
  }

  /** A tree comes back from its file, with "###" before every comment, exactly when it is well-formed. */
  lemma RoundTrip(t: Tree)
    ensures Parse(PrintTree(t)) == Ok(Bump(t)) <==> WellFormed(t)
  {
    hide Lex, ParseInput, WellFormed, NulFree;
    if WellFormed(t) {
      WellFormedParts(t);
      TrimWellFormed(t);
      TrimmedRoundTrip(t);
    }
    if Parse(PrintTree(t)) == Ok(Bump(t)) {
      ParsedNulFree(PrintTree(t));
      BumpNulFree(t);
      PrintTreeFree(t);
      ParsedWellFormed(PrintTree(t));
      BumpWellFormed(t);
    }
  }

  lemma WellFormedParts(t: Tree)
    requires WellFormed(t)
    ensures CommentsFirst(t) && forall i :: 0 <= i < |t| ==> WellFormedPref(t[i])
  {
  }

  lemma KeyBump(items: seq<SecItem>, key: string)
    ensures FindKey(BumpItems(items), key) == FindKey(items, key)
  {
    var n, more := FindKey(items, key), BumpItems(items);
    forall i: nat | i < |items|
      ensures more[i] == BumpItem(items[i])
    {
      BumpItemsAt(items, i);
    }
    if n < |items| {
      FoundFirst(more, key, n);
    } else {
      FoundNowhere(more, key);
    }
  }

  /** The prefix of comments is invisible to every lookup. */
  lemma LookupBump(t: Tree, sec: string, key: string)
    ensures Lookup(Bump(t), sec, key) == Lookup(t, sec, key)
  {
    var n, u := FindSection(t, sec), Bump(t);
    forall i: nat | i < |t|
      ensures u[i] == BumpPref(t[i])
    {
      BumpAt(t, i);
    }
    if n < |t| {
      FoundFirstSection(u, sec, n);
      var items := t[n].items;
      KeyBump(items, key);
      if FindKey(items, key) < |items| {
        BumpItemsAt(items, FindKey(items, key));
      }
    } else {
      FoundNoSection(u, sec);
    }
  }

  /** Every setting of a well-formed tree survives being saved and read again. */
  lemma SettingsSurvive(t: Tree, sec: string, key: string)
    requires WellFormed(t)
    ensures Parse(PrintTree(t)).Ok? && Lookup(Parse(PrintTree(t)).tree, sec, key) == Lookup(t, sec, key)
  {
    hide WellFormed;
    RoundTrip(t);
    hide Parse;
    LookupBump(t, sec, key);
  }

  /** So whatever was read from a NUL-free file can be written and read again. */
  lemma ReadWriteRead(text: string)
    requires Free(text, '\0') && Parse(text).Ok?
    ensures Parse(PrintTree(Parse(text).tree)) == Ok(Bump(Parse(text).tree))
  {
    ParsedWellFormed(text);
    RoundTrip(Parse(text).tree);
  }

  // ----- settings that do not survive -----

  /** A section with one entry, as setting a value in an empty store makes it. */
  function OneSetting(sec: string, key: string, value: string): Tree {
    [Sec(sec, [KeyVal(key, value)])]
  }

  lemma SettingAlone(sec: string, key: string, value: string)
    ensures WithSetting([], sec, key, value) == OneSetting(sec, key, value)
  {
    FoundNoSection([], sec);
    var u: Tree := [Sec(sec, [])];
    FoundFirstSection(u, sec, 0);
    FoundNowhere([], key);
    assert WithSection([], sec) == u && u[0 := Sec(sec, [KeyVal(key, value)])] == OneSetting(sec, key, value);
    assert [] + [KeyVal(key, value)] == [KeyVal(key, value)];
  }

  /** A value with blanks in front is saved with success, and read back as a different value. */
  lemma BlanksLost(sec: string, key: string, value: string)
    requires WellFormed(OneSetting(sec, key, TrimValue(value)))
    ensures Parse(PrintTree(WithSetting([], sec, key, value))) == Ok(OneSetting(sec, key, TrimValue(value)))
    ensures TrimValue(value) == value <==> value == "" || !IsBlank(value[0])
  {
    hide WellFormed, Parse, PrintTree, WithSetting;
    var t := OneSetting(sec, key, value);
    SettingAlone(sec, key, value);
    assert TrimItems(t[0].items) == [KeyVal(key, TrimValue(value))]
      && Trim(t) == OneSetting(sec, key, TrimValue(value));
    TrimmedRoundTrip(t);
    assert BumpItems(Trim(t)[0].items) == Trim(t)[0].items && Bump(Trim(t)) == Trim(t);
  }

  /** For instance this setting. */
  lemma BlankLost()
    ensures Parse(PrintTree(WithSetting([], "s", "k", " v"))) == Ok(OneSetting("s", "k", "v"))
  {
    hide Parse, PrintTree, WithSetting, WellFormed;
    OneCharacters();
    BlanksLost("s", "k", " v");
  }

  lemma SettingFits(sec: string, key: string, value: string)
    requires sec != "" && OneLine(sec) && Free(sec, ']') && value != "" && !IsBlank(value[0]) && OneLine(value)
    requires key != "" && forall i :: 0 <= i < |key| ==> IsKeyChar(key[i])
    ensures WellFormed(OneSetting(sec, key, value))
  {
    hide OneLine, Free, IsKeyChar, IsBlank;
    var t := OneSetting(sec, key, value);
    assert WellFormedItem(t[0].items[0]);
    assert WellFormedPref(t[0]);
  }

  lemma OneCharacter(c: char)
    requires 'a' <= c <= 'z'
    ensures OneLine([c]) && Free([c], ']') && IsKeyChar(c) && !IsBlank(c)
  {
  }

  lemma OneCharacters()
    ensures TrimValue(" v") == "v" && WellFormed(OneSetting("s", "k", "v"))
  {
    hide OneLine, Free, IsKeyChar, WellFormed, OneSetting;
    OneCharacter('s');
    OneCharacter('k');
    OneCharacter('v');
    var v := "v";
    var blank := " " + v;
    assert v[0] == 'v' && blank[0] == ' ' && blank[1..] == v && TrimValue(v) == v;
    assert " v" == blank;
    SettingFits("s", "k", v);
  }

  lemma NewlinesOnly()
    ensures Lex(INITIAL, "\n\n\n") == []
  {
    hide Lex;
    LexNothing();
    LexNewline(INITIAL, "");
    assert "\n\n" == "\n" + "\n" && "\n\n\n" == "\n" + "\n\n";
    LexNewline(INITIAL, "\n");
    LexNewline(INITIAL, "\n\n");
  }

  lemma NothingAssigned(value: string)
    requires TrimValue(value) == ""
    ensures Lex(INITIAL, "= " + value + "" + "\n" + "\n\n\n") == [Eq]
  {
    hide Lex;
    LexEquals(value, "", "\n\n\n");
    assert "" + "\n" + "\n\n\n" == "\n" + "\n\n\n";
    LexNewline(VALUE, "\n\n\n");
    NewlinesOnly();
  }

  /** A value that is empty, or nothing but blanks, makes the file unreadable. */
  lemma EmptyValueUnreadable(sec: string, key: string, value: string)
    requires WellFormed(OneSetting(sec, key, "v")) && TrimValue(value) == ""
    ensures Parse(PrintTree(WithSetting([], sec, key, value))) == SyntaxError
  {
    hide Lex, PrintTree, WithSetting, ParseInput, ParseSection, WellFormed, TrimValue;
    SettingAlone(sec, key, value);
    SettingWellFormed(sec, key, "v");
    PrintedAlone(sec, key, value);
    hide OneSetting, Free, OneLine, IsKeyChar;
    var tail := "= " + value + "" + "\n" + "\n\n\n";
    LexHeading(sec, key + " " + tail);
    LexKey(key, tail);
    NothingAssigned(value);
    ParseHeading(sec, [Key(key), Eq], []);
    assert [LeftBracket, SecName(sec), RightBracket] + ([Key(key)] + [Eq])
        == [LeftBracket, SecName(sec), RightBracket] + [Key(key), Eq];
    NoValue(key, sec);
  }

  /** For instance this one; so a store with it does not come back, although the API lets it be set. */
  lemma EmptyValueLost()
    ensures Parse(PrintTree(WithSetting([], "s", "k", ""))) == SyntaxError
    ensures !WellFormed(WithSetting([], "s", "k", "")) && !WellFormed(WithSetting([], "s", "k", " v"))
  {
    hide Parse, PrintTree, WithSetting, WellFormed, Bump;
    OneCharacters();
    EmptyValueUnreadable("s", "k", "");
    RoundTrip(WithSetting([], "s", "k", ""));
    BlankLost();
    RoundTrip(WithSetting([], "s", "k", " v"));
    SettingAlone("s", "k", " v");
    BumpSetting("s", "k", " v");
    assert " v"[0] != "v"[0];
  }

  lemma BumpSetting(sec: string, key: string, value: string)
    ensures Bump(OneSetting(sec, key, value)) == OneSetting(sec, key, value)
    ensures OneSetting(sec, key, value)[0].items[0].value == value
  {
    var t := OneSetting(sec, key, value);
    assert BumpItems(t[0].items) == t[0].items;
  }

  lemma SettingWellFormed(sec: string, key: string, value: string)
    requires WellFormed(OneSetting(sec, key, value))
    ensures sec != "" && OneLine(sec) && Free(sec, ']') && key != "" && forall i :: 0 <= i < |key| ==> IsKeyChar(key[i])
  {
    var s := OneSetting(sec, key, value)[0];
    assert WellFormedPref(s) && WellFormedItem(s.items[0]);
  }

  lemma PrintedAlone(sec: string, key: string, value: string)
    ensures PrintTree(OneSetting(sec, key, value))
         == "[" + sec + "]\n" + (key + " " + ("= " + value + "" + "\n" + "\n\n\n"))
  {
    var t := OneSetting(sec, key, value);
    assert t[1..] == [] && t[0].items[1..] == [];
    assert PrintItems(t[0].items) == key + " = " + value + "\n" + "";
    assert PrintTree(t) == "[" + sec + "]\n" + (key + " = " + value + "\n" + "") + "\n" + "\n" + "\n";
  }

  lemma NoValue(key: string, sec: string)
    ensures ParseSection([Key(key), Eq], [], sec, []) == SyntaxError
  {
  }
}
