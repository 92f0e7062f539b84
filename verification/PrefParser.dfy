/** The table-driven parser of src/pref_bison.cpp and the grammar it recognises. */
module PrefParser {
  import opened PrefTree
  import opened PrefScanner

  /** After a syntax error parse_prefs reports failure whatever error recovery does. */
  datatype Outcome = Ok(tree: Tree) | SyntaxError

  // ----- the grammar, by recursive descent -----

  /** Comments after the first section heading belong to a section. */
  function ParseInput(ts: seq<Token>, done: Tree): Outcome
    decreases |ts|, 0
  {
    if ts == [] then Ok(done)
    else if ts[0].Comment? then ParseInput(ts[1..], done + [PrefComment(ts[0].text)])
    else if |ts| >= 3 && ts[0].LeftBracket? && ts[1].SecName? && ts[2].RightBracket? then
      ParseSection(ts[3..], done, ts[1].text, [])
    else SyntaxError
  }

  function ParseSection(ts: seq<Token>, done: Tree, name: string, items: seq<SecItem>): Outcome
    decreases |ts|, 1
  {
    if ts != [] && ts[0].Comment? then ParseSection(ts[1..], done, name, items + [SecComment(ts[0].text)])
    else if ts != [] && ts[0].Key? then
      if |ts| >= 3 && ts[1].Eq? && ts[2].Value? then
        ParseSection(ts[3..], done, name, items + [KeyVal(ts[0].text, ts[2].text)])
      else SyntaxError
    else ParseInput(ts, done + [Sec(name, items)])
  }

  // ----- the tables -----

  const FINAL := 2

  const PACT: seq<int> := [-4, 0, -4, -4, -4, -3, -4, 2, -4, -1, -4, 1, -4, 3, -4]
  const DEFACT: seq<int> := [2, 0, 1, 5, 4, 0, 3, 0, 7, 6, 9, 0, 8, 0, 10]
  const PGOTO: seq<int> := [-4, -4, -4, -4, -4]
  const DEFGOTO: seq<int> := [0, 1, 6, 9, 12]
  const TABLE: seq<int> := [2, 3, 10, 4, 5, 11, 7, 8, 13, 0, 0, 14]
  const CHECK: seq<int> := [0, 1, 3, 3, 4, 6, 9, 5, 7, -1, -1, 8]
  const R1: seq<int> := [0, 11, 12, 12, 12, 12, 13, 14, 14, 14, 15]
  const R2: seq<int> := [0, 2, 0, 2, 2, 2, 4, 0, 2, 2, 3]

  datatype Act = Shift(state: int) | Reduce(rule: int) | Fail

  function Default(state: int): Act
    requires 0 <= state < 15
  {
    if DEFACT[state] == 0 then Fail else Reduce(DEFACT[state])
  }

  predicate NeedsToken(state: int)
    requires 0 <= state < 15
  {
    PACT[state] != -4
  }

  function Decide(state: int, symbol: int): Act
    requires 0 <= state < 15 && 0 <= symbol < 11
  {
    var n := PACT[state] + symbol;
    if PACT[state] == -4 || n < 0 || 11 < n || CHECK[n] != symbol then Default(state)
    else if TABLE[n] <= 0 then Reduce(-TABLE[n])
    else Shift(TABLE[n])
  }

  function Goto(rule: int, state: int): int
    requires 1 <= rule <= 10 && 0 <= state < 15
  {
    var lhs := R1[rule] - 11;
    var n := PGOTO[lhs] + state;
    if 0 <= n <= 11 && CHECK[n] == state then TABLE[n] else DEFGOTO[lhs]
  }

  const END := 0

  function Symbol(t: Token): (n: int)
    ensures 3 <= n <= 9
  {
    match t
    case Comment(_) => 3
    case LeftBracket => 4
    case RightBracket => 5
    case Key(_) => 6
    case Eq => 7
    case Value(_) => 8
    case SecName(_) => 9
  }

  // ----- what the tables say -----

  /** Decide, with its entries worked out; state 3 is entered by error recovery only. */
  function Entry(state: int, n: int): Act
    requires 0 <= state < 15 && state != 3
  {
    match state
    case 0 => Reduce(2)
    case 1 => if n == 0 then Shift(2) else if n == 3 then Shift(4) else if n == 4 then Shift(5) else Fail
    case 2 => Reduce(1)
    case 4 => Reduce(4)
    case 5 => if n == 9 then Shift(7) else Fail
    case 6 => Reduce(3)
    case 7 => if n == 5 then Shift(8) else Fail
    case 8 => Reduce(7)
    case 9 => if n == 3 then Shift(10) else if n == 6 then Shift(11) else Reduce(6)
    case 10 => Reduce(9)
    case 11 => if n == 7 then Shift(13) else Fail
    case 12 => Reduce(8)
    case 13 => if n == 8 then Shift(14) else Fail
    case _ => Reduce(10)
  }

  lemma Entries(state: int, n: int)
    requires 0 <= state < 15 && state != 3 && (n == 0 || 3 <= n <= 9)
    ensures Decide(state, n) == Entry(state, n)
    ensures NeedsToken(state) <==> state in {1, 5, 7, 9, 11, 13}
    ensures !NeedsToken(state) ==> Default(state) == Entry(state, n)
  {
  }

  function Length(rule: int): int
    requires 1 <= rule <= 10
  {
    R2[rule]
  }

  lemma Gotos()
    ensures Length(2) == Length(7) == 0 && Length(3) == Length(4) == Length(8) == Length(9) == 2
    ensures Length(6) == 4 && Length(10) == 3
    ensures Goto(2, 0) == 1 && Goto(3, 0) == 1 && Goto(4, 0) == 1 && Goto(6, 1) == 6
    ensures Goto(7, 8) == 9 && Goto(8, 8) == 9 && Goto(9, 8) == 9 && Goto(10, 9) == 12
  {
  }

  // ----- the stacks -----

  datatype Sem = Nothing | Text(s: string) | Pair(item: SecItem) | Section(name: string, items: seq<SecItem>)

  datatype Config = Config(states: seq<int>, values: seq<Sem>, prefs: Tree)

  /** The stack under each state is always the same. */
  function Path(state: int): (p: seq<int>)
    requires 0 <= state < 15 && state != 3
    ensures 0 < |p| <= 9 && p[|p| - 1] == state
  {
    match state
    case 0 => [0]
    case 1 => [0, 1]
    case 2 => [0, 1, 2]
    case 4 => [0, 1, 4]
    case 5 => [0, 1, 5]
    case 6 => [0, 1, 6]
    case 7 => [0, 1, 5, 7]
    case 8 => [0, 1, 5, 7, 8]
    case 9 => [0, 1, 5, 7, 8, 9]
    case 10 => [0, 1, 5, 7, 8, 9, 10]
    case 11 => [0, 1, 5, 7, 8, 9, 11]
    case 12 => [0, 1, 5, 7, 8, 9, 12]
    case 13 => [0, 1, 5, 7, 8, 9, 11, 13]
    case _ => [0, 1, 5, 7, 8, 9, 11, 13, 14]
  }

  function Top(c: Config): int
    requires c.states != []
  {
    c.states[|c.states| - 1]
  }

  predicate Shaped(c: Config) {
    && c.states != [] && 0 <= Top(c) < 15 && Top(c) != 3
    && c.states == Path(Top(c)) && |c.values| == |c.states|
    && (Top(c) == 4 ==> c.values[2].Text?)
    && (Top(c) == 6 ==> c.values[2].Section?)
    && (Top(c) >= 7 ==> c.values[3].Text?)
    && (Top(c) >= 9 ==> c.values[5].Section?)
    && (Top(c) in {10, 11, 13, 14} ==> c.values[6].Text?)
    && (Top(c) == 12 ==> c.values[6].Pair?)
    && (Top(c) == 14 ==> c.values[8].Text?)
  }

  /** What the parse comes to from here, with the tokens ts to come. */
  function Expect(c: Config, ts: seq<Token>): Outcome
    requires Shaped(c)
  {
    var v := c.values;
    match Top(c)
    case 0 => ParseInput(ts, [])
    case 1 => ParseInput(ts, c.prefs)
    case 2 => Ok(c.prefs)
    case 4 => ParseInput(ts, c.prefs + [PrefComment(v[2].s)])
    case 5 =>
      if |ts| >= 2 && ts[0].SecName? && ts[1].RightBracket? then ParseSection(ts[2..], c.prefs, ts[0].text, [])
      else SyntaxError
    case 6 => ParseInput(ts, c.prefs + [Sec(v[2].name, v[2].items)])
    case 7 => if ts != [] && ts[0].RightBracket? then ParseSection(ts[1..], c.prefs, v[3].s, []) else SyntaxError
    case 8 => ParseSection(ts, c.prefs, v[3].s, [])
    case 9 => ParseSection(ts, c.prefs, v[3].s, v[5].items)
    case 10 => ParseSection(ts, c.prefs, v[3].s, v[5].items + [SecComment(v[6].s)])
    case 11 =>
      if |ts| >= 2 && ts[0].Eq? && ts[1].Value? then
        ParseSection(ts[2..], c.prefs, v[3].s, v[5].items + [KeyVal(v[6].s, ts[1].text)])
      else SyntaxError
    case 12 => ParseSection(ts, c.prefs, v[3].s, v[5].items + [v[6].item])
    case 13 =>
      if ts != [] && ts[0].Value? then
        ParseSection(ts[1..], c.prefs, v[3].s, v[5].items + [KeyVal(v[6].s, ts[0].text)])
      else SyntaxError
    case _ => ParseSection(ts, c.prefs, v[3].s, v[5].items + [KeyVal(v[6].s, v[8].s)])
  }

  function SemOf(t: Token): Sem {
    match t
    case Comment(s) => Text(s)
    case Key(s) => Text(s)
    case Value(s) => Text(s)
    case SecName(s) => Text(s)
    case _ => Nothing
  }

  function Push(c: Config, state: int, v: Sem): Config {
    Config(c.states + [state], c.values + [v], c.prefs)
  }

  // ----- the steps -----

  lemma ShiftShaped(c: Config, t: Token, state: int)
    requires Shaped(c) && NeedsToken(Top(c)) && Decide(Top(c), Symbol(t)) == Shift(state)
    ensures var c' := Push(c, state, SemOf(t)); Shaped(c') && Top(c') == state && c'.prefs == c.prefs
    ensures Entry(Top(c), Symbol(t)) == Shift(state)
  {
    Entries(Top(c), Symbol(t));
    hide Decide, NeedsToken, Default;
    var c' := Push(c, state, SemOf(t));
    assert Top(c') == state && c'.states == Path(state);
    forall i | 0 <= i < |c.values|
      ensures c'.values[i] == c.values[i]
    {
    }
  }

  lemma ShiftKeeps(c: Config, t: Token, ts: seq<Token>, state: int)
    requires Shaped(c) && NeedsToken(Top(c)) && Decide(Top(c), Symbol(t)) == Shift(state)
    ensures var c' := Push(c, state, SemOf(t)); Shaped(c') && Expect(c', ts) == Expect(c, [t] + ts)
  {
    ShiftShaped(c, t, state);
    hide Decide, NeedsToken, Default, ParseInput, ParseSection;
    Unfold(c, t, ts);
    forall i | 0 <= i < |c.values|
      ensures Push(c, state, SemOf(t)).values[i] == c.values[i]
    {
    }
    assert ([t] + ts)[1..] == ts;
    assert |ts| > 0 ==> ([t] + ts)[2..] == ts[1..];
  }

  /** One token of the grammar. */
  lemma Unfold(c: Config, t: Token, ts: seq<Token>)
    requires Shaped(c)
    ensures Top(c) == 1 && t.Comment?
        ==> ParseInput([t] + ts, c.prefs) == ParseInput(ts, c.prefs + [PrefComment(t.text)])
    ensures Top(c) == 1 && t.LeftBracket? ==>
      ParseInput([t] + ts, c.prefs) ==
        if |ts| >= 2 && ts[0].SecName? && ts[1].RightBracket? then ParseSection(ts[2..], c.prefs, ts[0].text, [])
        else SyntaxError
    ensures Top(c) == 9 && t.Comment? ==>
      ParseSection([t] + ts, c.prefs, c.values[3].s, c.values[5].items)
      == ParseSection(ts, c.prefs, c.values[3].s, c.values[5].items + [SecComment(t.text)])
    ensures Top(c) == 9 && t.Key? ==>
      ParseSection([t] + ts, c.prefs, c.values[3].s, c.values[5].items) ==
        if |ts| >= 2 && ts[0].Eq? && ts[1].Value? then
          ParseSection(ts[2..], c.prefs, c.values[3].s, c.values[5].items + [KeyVal(t.text, ts[1].text)])
        else SyntaxError
  {
    var all := [t] + ts;
    assert all[1..] == ts;
    assert |ts| >= 2 ==> all[3..] == ts[2..] && all[1] == ts[0] && all[2] == ts[1];
  }

  /** The parser stops with an error exactly where the grammar does. */
  lemma FailRight(c: Config, ts: seq<Token>)
    requires Shaped(c) && Decide(Top(c), if ts == [] then END else Symbol(ts[0])) == Fail
    ensures Expect(c, ts) == SyntaxError
  {
    Entries(Top(c), if ts == [] then END else Symbol(ts[0]));
  }

  lemma AcceptRight(c: Config)
    requires Shaped(c) && Top(c) == 1
    ensures var c' := Push(c, FINAL, Nothing); Shaped(c') && Expect(c', []) == Expect(c, []) && Top(c') == FINAL
    ensures Rank(FINAL) < Rank(1)
  {
    var c' := Push(c, FINAL, Nothing);
    assert c'.states == Path(2);
  }

  /** The value a rule computes from the top of the stack, and what it does to the preferences. */
  function RuleValue(rule: int, v: seq<Sem>): Sem
    requires rule == 6 ==> |v| >= 4 && v[|v| - 3].Text? && v[|v| - 1].Section?
    requires rule == 8 ==> |v| >= 2 && v[|v| - 2].Section? && v[|v| - 1].Pair?
    requires rule == 9 ==> |v| >= 2 && v[|v| - 2].Section? && v[|v| - 1].Text?
    requires rule == 10 ==> |v| >= 3 && v[|v| - 3].Text? && v[|v| - 1].Text?
  {
    var n := |v|;
    if rule == 6 then Section(v[n - 3].s, v[n - 1].items)
    else if rule == 7 then Section("", [])
    else if rule == 8 then Section(v[n - 2].name, v[n - 2].items + [v[n - 1].item])
    else if rule == 9 then Section(v[n - 2].name, v[n - 2].items + [SecComment(v[n - 1].s)])
    else if rule == 10 then Pair(KeyVal(v[n - 3].s, v[n - 1].s))
    else Nothing
  }

  function RulePrefs(rule: int, v: seq<Sem>, prefs: Tree): Tree
    requires rule == 3 ==> v != [] && v[|v| - 1].Section?
    requires rule == 4 ==> v != [] && v[|v| - 1].Text?
  {
    if rule == 2 then []
    else if rule == 3 then prefs + [Sec(v[|v| - 1].name, v[|v| - 1].items)]
    else if rule == 4 then prefs + [PrefComment(v[|v| - 1].s)]
    else prefs
  }

  predicate CanReduce(c: Config, rule: int) {
    && Shaped(c)
    && match Top(c)
       case 0 => rule == 2
       case 4 => rule == 4
       case 6 => rule == 3
       case 8 => rule == 7
       case 9 => rule == 6
       case 10 => rule == 9
       case 12 => rule == 8
       case 14 => rule == 10
       case _ => false
  }

  function Reduced(c: Config, rule: int): Config
    requires CanReduce(c, rule)
  {
    Gotos();
    var n := |c.states| - Length(rule);
    var states, v := c.states[..n], RuleValue(rule, c.values);
    Config(states + [Goto(rule, states[n - 1])], c.values[..n] + [v], RulePrefs(rule, c.values, c.prefs))
  }

  /** The operands of a rule are on the stack, and below them nothing is touched. */
  lemma Operands(c: Config, rule: int)
    requires CanReduce(c, rule)
    ensures var v, n := c.values, |c.values|;
      && 0 < n - Length(rule) && |c.states| == n
      && (rule == 3 ==> v[n - 1].Section?)
      && (rule == 4 ==> v[n - 1].Text?)
      && (rule == 6 ==> v[n - 3].Text? && v[n - 1].Section?)
      && (rule == 8 ==> v[n - 2].Section? && v[n - 1].Pair?)
      && (rule == 9 ==> v[n - 2].Section? && v[n - 1].Text?)
      && (rule == 10 ==> v[n - 3].Text? && v[n - 1].Text?)
      && Reduced(c, rule).values == v[..n - Length(rule)] + [RuleValue(rule, v)]
      && Reduced(c, rule).prefs == RulePrefs(rule, v, c.prefs)
    ensures rule == 2 || rule == 3 || rule == 4 || rule == 6 || rule == 7 || rule == 8 || rule == 9 || rule == 10
  {
    Gotos();
    hide Goto, Length, RuleValue, RulePrefs;
  }

  lemma ReduceKeeps(c: Config, rule: int, ts: seq<Token>)
    requires CanReduce(c, rule)
    requires Top(c) == 9 ==> ts == [] || !(ts[0].Comment? || ts[0].Key?)
    ensures Shaped(Reduced(c, rule)) && Expect(Reduced(c, rule), ts) == Expect(c, ts)
    ensures Rank(Top(Reduced(c, rule))) < Rank(Top(c))
  {
    hide ParseInput, ParseSection, Goto, Length;
    ReduceShape(c, rule);
    SectionEnds(ts, c);
  }

  /** The state that a reduction leads to. */
  function StateAfter(rule: int): int {
    match rule
    case 2 => 1
    case 3 => 1
    case 4 => 1
    case 6 => 6
    case 10 => 12
    case _ => 9
  }

  lemma ReducedPath(c: Config, rule: int)
    requires CanReduce(c, rule)
    ensures var c' := Reduced(c, rule);
      && c'.states == Path(Top(c')) && |c'.values| == |c'.states| <= |c.values| + 1 && Rank(Top(c')) < Rank(Top(c))
      && Top(c') == StateAfter(rule)
  {
    Gotos();
    hide Goto, Length;
    assert Reduced(c, rule).states == Path(Top(Reduced(c, rule)));
  }

  lemma ReduceShape(c: Config, rule: int)
    requires CanReduce(c, rule)
    ensures var c' := Reduced(c, rule);
      Shaped(c') && Rank(Top(c')) < Rank(Top(c)) && |c'.values| <= |c.values| + 1
      && c'.values[|c'.values| - 1] == RuleValue(rule, c.values) && c'.prefs == RulePrefs(rule, c.values, c.prefs)
      && forall i :: 0 <= i < |c'.values| - 1 ==> c'.values[i] == c.values[i]
    ensures Top(Reduced(c, rule)) == StateAfter(rule)
  {
    ReducedPath(c, rule);
    hide Goto, Length, Rank;
    var c' := Reduced(c, rule);
    assert forall i :: 0 <= i < |c'.values| - 1 ==> c'.values[i] == c.values[i];
  }

  lemma SectionEnds(ts: seq<Token>, c: Config)
    requires Shaped(c) && (Top(c) == 9 ==> ts == [] || !(ts[0].Comment? || ts[0].Key?))
    ensures Top(c) == 9 ==>
      ParseSection(ts, c.prefs, c.values[3].s, c.values[5].items)
        == ParseInput(ts, c.prefs + [Sec(c.values[3].s, c.values[5].items)])
  {
  }

  /** Reductions alone cannot go on for ever. */
  function Rank(state: int): nat {
    match state
    case 14 => 5
    case 12 => 4
    case 10 => 4
    case 8 => 4
    case 9 => 3
    case 6 => 2
    case 4 => 2
    case 0 => 2
    case 1 => 1
    case _ => 0
  }

  datatype Lookahead = Empty | Eof | Tok(token: Token)

  /** The tokens still to be parsed: the one read ahead, if any, and what the scanner will deliver. */
  ghost function ToCome(yychar: Lookahead, rest: seq<Token>): seq<Token> {
    match yychar
    case Empty => rest
    case Eof => []
    case Tok(t) => [t] + rest
  }

  /** Whatever the store holds before the first reduction clears it. */
  lemma Begins(ts: seq<Token>, prefs: Tree)
    ensures var c := Config([0], [Nothing], prefs); Shaped(c) && Expect(c, ts) == ParseInput(ts, [])
  {
  }

  lemma ShapedTop(c: Config)
    requires Shaped(c)
    ensures c.states != [] && 0 <= Top(c) < 15 && Top(c) != 3
    ensures Top(c) == FINAL ==> forall ts :: Expect(c, ts) == Ok(c.prefs)
  {
  }

  function SymbolOf(ts: seq<Token>): int {
    if ts == [] then END else Symbol(ts[0])
  }

  lemma Decided(c: Config, ts: seq<Token>, act: Act)
    requires Shaped(c) && NeedsToken(Top(c)) && act == Decide(Top(c), SymbolOf(ts))
    ensures act == Fail ==> Expect(c, ts) == SyntaxError
    ensures act.Shift? && ts == [] ==> Top(c) == 1 && act.state == FINAL
    ensures act.Reduce? ==> CanReduce(c, act.rule) && (ts == [] || !(ts[0].Comment? || ts[0].Key?))
  {
    Entries(Top(c), SymbolOf(ts));
    if act == Fail {
      FailRight(c, ts);
    }
  }

  lemma Defaulted(c: Config, act: Act)
    requires Shaped(c) && !NeedsToken(Top(c)) && Top(c) != FINAL && act == Default(Top(c))
    ensures act.Reduce? && CanReduce(c, act.rule) && Top(c) != 9
  {
    Entries(Top(c), END);
  }
}
