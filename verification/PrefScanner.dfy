/** The scanner generated from src/pref_flex.lpp: eleven rules under three start conditions. */
module PrefScanner {
  import opened Options
  import opened PrefTree

  datatype Start = INITIAL | VALUE | SEC_NAME

  datatype Token =
    | Comment(text: string) | LeftBracket | RightBracket | Key(text: string) | Eq | Value(text: string)
    | SecName(text: string)

  // ----- the rules: which texts each of them matches -----

  datatype Class = Blank | KeyChar | InLine | InName

  predicate In(cl: Class, c: char) {
    match cl
    case Blank => IsBlank(c)
    case KeyChar => IsKeyChar(c)
    case InLine => c != '\n'
    case InName => c != ']' && c != '\n'
  }

  predicate AllIn(cl: Class, s: string) {
    forall i :: 0 <= i < |s| ==> In(cl, s[i])
  }

  /** Rule number k, active in start condition st, matches the text s; rule 11 is flex's default. */
  predicate Matches(k: nat, st: Start, s: string) {
    || (k == 1 && st == INITIAL && s != "" && s[0] == '=' && AllIn(Blank, s[1..]))
    || (k == 2 && st == INITIAL && s == "[")
    || (k == 3 && st == INITIAL && s == "]")
    || (k == 4 && st == INITIAL && s != "" && AllIn(KeyChar, s))
    || (k == 5 && st == INITIAL && s != "" && s[0] == '#' && AllIn(InLine, s[1..]))
    || (k == 6 && st == INITIAL && |s| == 1 && IsBlank(s[0]))
    || (k == 7 && st == VALUE && AllIn(InLine, s))
    || (k == 8 && st != SEC_NAME && s == "\n")
    || (k == 9 && st == SEC_NAME && AllIn(InName, s))
    || (k == 10 && st == INITIAL && |s| == 1 && s[0] != '\n')
    || (k == 11 && |s| == 1)
  }

  /** flex's choice: the longest match, and of equally long ones the first rule. */
  ghost predicate Chooses(st: Start, s: string, k: nat, n: nat) {
    && 1 <= k <= 11 && n <= |s| && Matches(k, st, s[..n])
    && forall k': nat, n': nat {:trigger Matches(k', st, s[..n'])} ::
         1 <= k' <= 11 && n' <= |s| && Matches(k', st, s[..n']) ==> n' < n || (n' == n && k <= k')
  }

  // ----- one rule -----

  /** A token's text is copied as a C string and ends at a NUL. */
  function CStr(s: string): (r: string)
    ensures |r| <= |s| && r == s[..|r|] && (|r| < |s| ==> s[|r|] == '\0')
    ensures Free(r, '\0')
  {
    if s == "" || s[0] == '\0' then ""
    else [s[0]] + CStr(s[1..])
  }

  lemma CStrWhole(s: string)
    requires Free(s, '\0')
    ensures CStr(s) == s
  {
  }

  function Span(cl: Class, s: string): (n: nat)
    ensures n <= |s| && AllIn(cl, s[..n]) && (n < |s| ==> !In(cl, s[n]))
  {
    if s == "" || !In(cl, s[0]) then 0
    else
      var n := 1 + Span(cl, s[1..]);
      assert s[1..n] == s[1..][..n - 1];
      n
  }

  datatype Step = Step(rule: nat, len: nat, token: Option<Token>, next: Start)

  /** What the scanner does at the front of s. */
  function Apply(st: Start, s: string): (r: Step)
    requires s != ""
    ensures 1 <= r.len <= |s|
  {
    var c := s[0];
    match st
    case INITIAL =>
      if c == '=' then Step(1, 1 + Span(Blank, s[1..]), Some(Eq), VALUE)
      else if c == '[' then Step(2, 1, Some(LeftBracket), SEC_NAME)
      else if c == ']' then Step(3, 1, Some(RightBracket), INITIAL)
      else if IsKeyChar(c) then var n := Span(KeyChar, s); Step(4, n, Some(Key(CStr(s[..n]))), INITIAL)
      else if c == '#' then var n := Span(InLine, s); Step(5, n, Some(Comment(CStr(s[..n]))), INITIAL)
      else if IsBlank(c) then Step(6, 1, None, INITIAL)
      else if c == '\n' then Step(8, 1, None, INITIAL)
      else Step(10, 1, None, INITIAL)
    case VALUE =>
      if c == '\n' then Step(8, 1, None, INITIAL)
      else var n := Span(InLine, s); Step(7, n, Some(Value(CStr(s[..n]))), VALUE)
    case SEC_NAME =>
      if c == ']' || c == '\n' then Step(11, 1, None, SEC_NAME)
      else var n := Span(InName, s); Step(9, n, Some(SecName(CStr(s[..n]))), INITIAL)
  }

  lemma SpanLongest(cl: Class, s: string, n: nat)
    requires n <= |s| && AllIn(cl, s[..n])
    ensures n <= Span(cl, s)
  {
  }

  lemma SpanAfter(cl: Class, s: string, n: nat)
    requires 0 < n <= |s| && AllIn(cl, s[..n][1..])
    ensures n <= 1 + Span(cl, s[1..])
  {
    assert s[..n][1..] == s[1..][..n - 1];
    SpanLongest(cl, s[1..], n - 1);
  }

  lemma NoneBetter(st: Start, s: string, k: nat, n: nat)
    requires s != "" && 1 <= k <= 11 && n <= |s| && Matches(k, st, s[..n])
    ensures var r := Apply(st, s); n < r.len || (n == r.len && r.rule <= k)
  {
    var t := s[..n];
    assert n > 0 ==> t[0] == s[0];
    if n > 0 && st == INITIAL {
      if k == 1 {
        SpanAfter(Blank, s, n);
      } else if k == 4 {
        SpanLongest(KeyChar, s, n);
      } else if k == 5 {
        assert AllIn(InLine, t);
        SpanLongest(InLine, s, n);
      }
    } else if n > 0 && k == 7 {
      SpanLongest(InLine, s, n);
    } else if n > 0 && k == 9 {
      SpanLongest(InName, s, n);
    }
  }

  lemma OwnMatch(st: Start, s: string)
    requires s != ""
    ensures var r := Apply(st, s); 1 <= r.rule <= 11 && Matches(r.rule, st, s[..r.len])
  {
    var r := Apply(st, s);
    var t := s[..r.len];
    assert t[0] == s[0];
    if r.rule == 1 {
      assert t[1..] == s[1..][..r.len - 1];
    } else if r.rule == 5 {
      assert forall i :: 0 <= i < |t[1..]| ==> t[1..][i] == t[i + 1];
    }
  }

  /** The scanner takes the longest match, and the first rule among equally long ones. */
  lemma LongestMatch(st: Start, s: string)
    requires s != ""
    ensures var r := Apply(st, s); Chooses(st, s, r.rule, r.len)
  {
    OwnMatch(st, s);
    forall k: nat, n: nat | 1 <= k <= 11 && n <= |s| && Matches(k, st, s[..n])
      ensures var r := Apply(st, s); n < r.len || (n == r.len && r.rule <= k)
    {
      NoneBetter(st, s, k, n);
    }
  }

  // ----- the whole text -----

  function Emitted(o: Option<Token>): seq<Token> {
    match o
    case None => []
    case Some(t) => [t]
  }

  /** All tokens of the text s. */
  function Lex(st: Start, s: string): seq<Token>
    decreases |s|
  {
    if s == "" then []
    else
      var r := Apply(st, s);
      Emitted(r.token) + Lex(r.next, s[r.len..])
  }

  lemma LexStep(st: Start, s: string)
    requires s != ""
    ensures var r := Apply(st, s); Lex(st, s) == Emitted(r.token) + Lex(r.next, s[r.len..])
  {
  }

  lemma SliceOfRest(text: string, from: nat, end: nat)
    requires from <= end <= |text|
    ensures text[from..end] == text[from..][..end - from] && text[from..][end - from..] == text[end..]
  {
  }

  /** The static state of the scanner: text, cursor and start condition. */
  class Scanner {
    const text: string
    var pos: nat
    var start: Start

    constructor (text: string)
      ensures this.text == text && Valid() && Rest() == Lex(INITIAL, text)
    {
      this.text := text;
      pos, start := 0, INITIAL;
      new;
      assert text[0..] == text;
    }

    predicate Valid()
      reads this
    {
      pos <= |text|
    }

    /** The tokens still to come. */
    ghost function Rest(): seq<Token>
      requires Valid()
      reads this
    {
      Lex(start, text[pos..])
    }

    method SpanFrom(cl: Class, from: nat) returns (end: nat)
      requires from <= |text|
      ensures end == from + Span(cl, text[from..])
    {
      end := from;
      while end < |text| && In(cl, text[end])
        invariant from <= end <= |text|
        invariant from + Span(cl, text[from..]) == end + Span(cl, text[end..])
      {
        assert text[end..][1..] == text[end + 1..];
        end := end + 1;
      }
    }

    /** The longest run of the class at the cursor: its end, and yytext as a C string. */
    method Word(cl: Class) returns (end: nat, word: string)
      requires Valid()
      ensures end == pos + Span(cl, text[pos..]) <= |text| && word == CStr(text[pos..][..end - pos])
    {
      hide Span, CStr;
      end := SpanFrom(cl, pos);
      SliceOfRest(text, pos, end);
      word := CStr(text[pos..end]);
    }

    /** yylex; no token stands for the end of the file. */
    method NextToken() returns (token: Option<Token>)
      requires Valid()
      modifies this
      ensures Valid()
      ensures match token
              case None => old(Rest()) == [] && Rest() == []
              case Some(t) => old(Rest()) == [t] + Rest()
    {
      token := None;
      while pos < |text| && token.None?
        invariant Valid()
        invariant old(Rest()) == Emitted(token) + Rest()
        decreases |text| - pos
      {
        token := Action();
      }
    }

    /** The rules under INITIAL. */
    method MatchInitial() returns (end: nat, token: Option<Token>, next: Start)
      requires Valid() && pos < |text|
      ensures var r := Apply(INITIAL, text[pos..]); r.len == end - pos && r.token == token && r.next == next
      ensures pos < end <= |text|
    {
      hide Span, CStr, AllIn, In;
      var c, word := text[pos], "";
      end, token, next := pos + 1, None, INITIAL;
      if c == '=' {
        SliceOfRest(text, pos, pos + 1);
        end := SpanFrom(Blank, pos + 1);
        token, next := Some(Eq), VALUE;
      } else if c == '[' {
        token, next := Some(LeftBracket), SEC_NAME;
      } else if c == ']' {
        token := Some(RightBracket);
      } else if IsKeyChar(c) {
        end, word := Word(KeyChar);
        token := Some(Key(word));
      } else if c == '#' {
        end, word := Word(InLine);
        token := Some(Comment(word));
      }
    }

    /** The rules under VALUE. */
    method MatchValue() returns (end: nat, token: Option<Token>, next: Start)
      requires Valid() && pos < |text|
      ensures var r := Apply(VALUE, text[pos..]); r.len == end - pos && r.token == token && r.next == next
      ensures pos < end <= |text|
    {
      hide Span, CStr, AllIn, In;
      end, token, next := pos + 1, None, INITIAL;
      if text[pos] != '\n' {
        var word;
        end, word := Word(InLine);
        token, next := Some(Value(word)), VALUE;
      }
    }

    /** The rules under SEC_NAME. */
    method MatchName() returns (end: nat, token: Option<Token>, next: Start)
      requires Valid() && pos < |text|
      ensures var r := Apply(SEC_NAME, text[pos..]); r.len == end - pos && r.token == token && r.next == next
      ensures pos < end <= |text|
    {
      hide Span, CStr, AllIn, In;
      end, token, next := pos + 1, None, SEC_NAME;
      if text[pos] != ']' && text[pos] != '\n' {
        var word;
        end, word := Word(InName);
        token, next := Some(SecName(word)), INITIAL;
      }
    }

    /** One pass of the scanner's loop: a match and its action. */
    method Action() returns (token: Option<Token>)
      requires Valid() && pos < |text|
      modifies this
      ensures Valid() && old(pos) < pos
      ensures old(Rest()) == Emitted(token) + Rest()
    {
      hide Lex, Apply;
      ghost var s, st := text[pos..], start;
      LexStep(st, s);
      var end, next;
      match start {
        case INITIAL => end, token, next := MatchInitial();
        case VALUE => end, token, next := MatchValue();
        case SEC_NAME => end, token, next := MatchName();
      }
      SliceOfRest(text, pos, end);
      start, pos := next, end;
    }
  }
}
