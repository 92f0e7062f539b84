/** Reading a preference file into the store: the parser's loop with the grammar actions of src/pref_bison.cpp. */
module PrefLoad {
  import opened PrefTree
  import opened PrefScanner
  import opened PrefParser
  import PrefStore

  /** What the value stack holds: a section under construction is an object that the actions change. */
  datatype Cell = Plain(value: Sem) | Object(s: PrefStore.Section)

  ghost predicate Holds(c: Cell, v: Sem)
    reads if c.Object? then {c.s} else {}
  {
    match c
    case Plain(w) => v == w && !w.Section?
    case Object(s) => s.Valid() && v == Section(s.name, s.items)
  }

  /** The cells stand for the values; their objects are among the given ones and all different. */
  ghost predicate Represents(cells: seq<Cell>, values: seq<Sem>, objects: set<PrefStore.Section>)
    reads objects
  {
    && |cells| == |values|
    && (forall i :: 0 <= i < |cells| ==> (cells[i].Object? ==> cells[i].s in objects) && Holds(cells[i], values[i]))
    && forall i, j :: 0 <= i < j < |cells| && cells[i].Object? && cells[j].Object? ==> cells[i].s != cells[j].s
  }

  lemma PushCell(cells: seq<Cell>, values: seq<Sem>, objects: set<PrefStore.Section>, v: Sem)
    requires Represents(cells, values, objects) && !v.Section?
    ensures Represents(cells + [Plain(v)], values + [v], objects)
  {
    hide PrefStore.Section.Valid;
  }

  /** Rules 2, 3 and 4, which act on the store. */
  method ReduceInput(rule: int, cells: seq<Cell>, prefs: PrefStore.Prefs, ghost values: seq<Sem>,
          ghost objects: set<PrefStore.Section>)
    requires 2 <= rule <= 4 && prefs.Valid() && Represents(cells, values, objects) && objects !! prefs.sections
    requires (rule == 3 ==> values != [] && values[|values| - 1].Section?)
        && (rule == 4 ==> values != [] && values[|values| - 1].Text?)
    modifies prefs
    ensures prefs.Valid() && prefs.tree == RulePrefs(rule, values, old(prefs.tree))
    ensures prefs.sections ==
      if rule == 2 then {}
      else if rule == 3 then old(prefs.sections) + {cells[|cells| - 1].s}
      else old(prefs.sections)
  {
    hide PrefStore.Section.Valid, PrefStore.Prefs.Valid;
    if rule == 2 {
      prefs.Clear();
    } else {
      var top := cells[|cells| - 1];
      assert Holds(top, values[|values| - 1]);
      if rule == 3 {
        prefs.AddItem(top.s);
      } else {
        prefs.AddComment(top.value.s);
      }
    }
  }

  /** Rules 6 to 9, which act on a section; its cell stays on the stack. */
  method ReduceSection(rule: int, cells: seq<Cell>, ghost values: seq<Sem>, ghost objects: set<PrefStore.Section>)
    returns (cell: Cell)
    requires 6 <= rule <= 9 && Represents(cells, values, objects)
    requires var n := |values|;
      && (rule == 6 ==> n >= 4 && values[n - 3].Text? && values[n - 1].Section?)
      && (rule == 8 ==> n >= 2 && values[n - 2].Section? && values[n - 1].Pair?)
      && (rule == 9 ==> n >= 2 && values[n - 2].Section? && values[n - 1].Text?)
    modifies objects
    ensures cell.Object? && Holds(cell, RuleValue(rule, values))
    ensures if rule == 7 then fresh(cell.s)
            else cell == cells[|cells| - if rule == 6 then 1 else 2]
                 && forall s :: s in objects && s != cell.s ==> unchanged(s)
    ensures rule == 7 ==> forall s :: s in objects ==> unchanged(s)
  {
    hide PrefStore.Section.Valid;
    var n := |cells|;
    if rule == 7 {
      var s := new PrefStore.Section("");
      cell := Object(s);
    } else if rule == 6 {
      cell := cells[n - 1];
      assert Holds(cell, values[n - 1]) && Holds(cells[n - 3], values[n - 3]);
      cell.s.SetName(cells[n - 3].value.s);
    } else {
      cell := cells[n - 2];
      assert Holds(cell, values[n - 2]) && Holds(cells[n - 1], values[n - 1]);
      if rule == 8 {
        cell.s.AddItem(cells[n - 1].value.item);
      } else {
        cell.s.AddItem(SecComment(cells[n - 1].value.s));
      }
    }
  }

  /** The cells below the operands, and the new one on top, once only its object was changed. */
  lemma Replaced(cells: seq<Cell>, values: seq<Sem>, objects: set<PrefStore.Section>, m: nat, cell: Cell, v: Sem,
                 objects': set<PrefStore.Section>)
    requires m <= |cells| == |values| && Holds(cell, v) && (cell.Object? ==> cell.s in objects')
    requires forall i :: 0 <= i < m ==>
      Holds(cells[i], values[i])
        && (cells[i].Object? ==> cells[i].s in objects' && (cell.Object? ==> cells[i].s != cell.s))
    requires forall i, j :: 0 <= i < j < m && cells[i].Object? && cells[j].Object? ==> cells[i].s != cells[j].s
    ensures Represents(cells[..m] + [cell], values[..m] + [v], objects')
  {
    hide PrefStore.Section.Valid;
  }

  /** What rules 2, 3 and 4 leave on the value stack above the m cells below their operands. */
  method ReduceOnStore(rule: int, m: nat, cells: seq<Cell>, prefs: PrefStore.Prefs, ghost values: seq<Sem>,
                       ghost objects: set<PrefStore.Section>)
    returns (cell: Cell, ghost objects': set<PrefStore.Section>)
    requires 2 <= rule <= 4 && prefs.Valid() && Represents(cells, values, objects) && objects !! prefs.sections
    requires m <= |cells| && (rule != 2 ==> m < |cells|)
    requires rule == 3 ==> values[|values| - 1].Section?
    requires rule == 4 ==> values[|values| - 1].Text?
    modifies prefs
    ensures Represents(cells[..m] + [cell], values[..m] + [RuleValue(rule, values)], objects')
    ensures prefs.Valid() && prefs.tree == RulePrefs(rule, values, old(prefs.tree)) && objects' !! prefs.sections
    ensures objects' <= objects && prefs.sections <= old(prefs.sections) + objects
  {
    hide PrefStore.Section.Valid, PrefStore.Prefs.Valid;
    assert rule == 3 ==> Holds(cells[|cells| - 1], values[|values| - 1]);
    cell, objects' := Plain(Nothing), if rule == 3 then objects - {cells[|cells| - 1].s} else objects;
    Replaced(cells, values, objects, m, cell, Nothing, objects');
    ReduceInput(rule, cells, prefs, values, objects);
  }

  /** What rules 6 to 9 leave there. */
  method ReduceOnSection(rule: int, m: nat, cells: seq<Cell>, ghost values: seq<Sem>,
          ghost objects: set<PrefStore.Section>)
    returns (cell: Cell, ghost objects': set<PrefStore.Section>)
    requires 6 <= rule <= 9 && Represents(cells, values, objects)
    requires var n := |values|;
      && (rule == 6 ==> n >= 4 && values[n - 3].Text? && values[n - 1].Section?)
      && (rule == 8 ==> n >= 2 && values[n - 2].Section? && values[n - 1].Pair?)
      && (rule == 9 ==> n >= 2 && values[n - 2].Section? && values[n - 1].Text?)
    requires m == |cells| - if rule == 6 then 4 else if rule == 7 then 0 else 2
    modifies objects
    ensures Represents(cells[..m] + [cell], values[..m] + [RuleValue(rule, values)], objects')
    ensures fresh(objects' - objects) && objects <= objects'
  {
    hide PrefStore.Section.Valid, RuleValue;
    cell := ReduceSection(rule, cells, values, objects);
    objects' := objects + {cell.s};
    Replaced(cells, values, objects, m, cell, RuleValue(rule, values), objects');
  }

  lemma PairHeld(cells: seq<Cell>, values: seq<Sem>, objects: set<PrefStore.Section>)
    requires Represents(cells, values, objects)
    requires var n := |values|; n >= 3 && values[n - 3].Text? && values[n - 1].Text?
    ensures var n := |cells|; n >= 3 && cells[n - 3] == Plain(values[n - 3]) && cells[n - 1] == Plain(values[n - 1])
  {
    hide PrefStore.Section.Valid;
  }

  lemma PairRepresents(cells: seq<Cell>, values: seq<Sem>, objects: set<PrefStore.Section>, m: nat, v: Sem)
    requires Represents(cells, values, objects) && m <= |cells| && !v.Section?
    ensures Represents(cells[..m] + [Plain(v)], values[..m] + [v], objects)
  {
    hide PrefStore.Section.Valid;
  }

  lemma Lengths()
    ensures Length(2) == Length(7) == 0 && Length(3) == Length(4) == Length(8) == Length(9) == 2
    ensures Length(6) == 4 && Length(10) == 3
  {
    Gotos();
  }

  /** One reduction: the value stack, the sections and the store change as the specified step says. */
  method Reduce(rule: int, cells: seq<Cell>, prefs: PrefStore.Prefs, ghost c: Config,
          ghost objects: set<PrefStore.Section>)
    returns (cell: Cell, ghost objects': set<PrefStore.Section>)
    requires CanReduce(c, rule) && Represents(cells, c.values, objects)
    requires prefs.Valid() && prefs.tree == c.prefs && objects !! prefs.sections
    modifies prefs, objects
    ensures 0 < Length(rule) + 1 <= |cells|
    ensures Represents(cells[..|cells| - Length(rule)] + [cell], Reduced(c, rule).values, objects')
    ensures prefs.Valid() && prefs.tree == Reduced(c, rule).prefs && objects' !! prefs.sections
    ensures fresh(objects' - objects) && prefs.sections <= old(prefs.sections) + objects
  {
    hide PrefStore.Section.Valid, PrefStore.Prefs.Valid, CanReduce, Reduced, Shaped, Holds, Represents, Length;
    Operands(c, rule);
    Lengths();
    SameHeight(cells, c.values, objects);
    var m := |cells| - Length(rule);
    if rule <= 4 {
      cell, objects' := ReduceOnStore(rule, m, cells, prefs, c.values, objects);
    } else if rule <= 9 {
      cell, objects' := ReduceOnSection(rule, m, cells, c.values, objects);
    } else {
      PairHeld(cells, c.values, objects);
      cell, objects' := Plain(Pair(KeyVal(cells[|cells| - 3].value.s, cells[|cells| - 1].value.s))), objects;
      PairRepresents(cells, c.values, objects, m, cell.value);
    }
  }

  lemma SameHeight(cells: seq<Cell>, values: seq<Sem>, objects: set<PrefStore.Section>)
    requires Represents(cells, values, objects)
    ensures |cells| == |values|
  {
  }

  /** The part of the loop that looks ahead where the tables ask for it, and decides. */
  method LookAhead(sc: Scanner, state: int, yychar0: Lookahead, ghost c: Config) returns (act: Act, yychar: Lookahead)
    requires sc.Valid() && Shaped(c) && state == Top(c) && state != FINAL && (yychar0.Eof? ==> sc.Rest() == [])
    modifies sc
    ensures sc.Valid() && (yychar.Eof? ==> sc.Rest() == [])
    ensures ToCome(yychar, sc.Rest()) == old(ToCome(yychar0, sc.Rest()))
    ensures var ts := ToCome(yychar, sc.Rest());
      && (act.Fail? ==> Expect(c, ts) == SyntaxError)
      && (act.Shift? && yychar.Tok? ==> NeedsToken(Top(c)) && Decide(Top(c), Symbol(yychar.token)) == act)
      && (act.Shift? && !yychar.Tok? ==> yychar.Eof? && Top(c) == 1 && act.state == FINAL)
      && (act.Reduce? ==> CanReduce(c, act.rule) && (Top(c) == 9 ==> ts == [] || !(ts[0].Comment? || ts[0].Key?)))
  {
    hide ParseInput, ParseSection, Decide, NeedsToken, Default, Shaped, Expect, CanReduce, Lex, Symbol;
    yychar := yychar0;
    ShapedTop(c);
    if NeedsToken(state) {
      if yychar.Empty? {
        var t := sc.NextToken();
        yychar := if t.None? then Eof else Tok(t.value);
      }
      act := Decide(state, if yychar.Eof? then END else Symbol(yychar.token));
      Decided(c, ToCome(yychar, sc.Rest()), act);
    } else {
      act := Default(state);
      Defaulted(c, act);
    }
  }

  /** A shift of the token ahead, or of the end of the file. */
  lemma ShiftStep(c: Config, yychar: Lookahead, rest: seq<Token>, state: int)
    requires Shaped(c) && !yychar.Empty? && (yychar.Eof? ==> rest == [] && Top(c) == 1 && state == FINAL)
    requires yychar.Tok? ==> NeedsToken(Top(c)) && Decide(Top(c), Symbol(yychar.token)) == Shift(state)
    ensures var c' := Push(c, state, if yychar.Tok? then SemOf(yychar.token) else Nothing);
      && Shaped(c') && Expect(c', rest) == Expect(c, ToCome(yychar, rest))
      && (yychar.Eof? ==> Rank(Top(c')) < Rank(Top(c)))
  {
    hide Shaped, Expect, NeedsToken, Decide, Symbol, Rank;
    if yychar.Tok? {
      ShiftKeeps(c, yychar.token, rest, state);
    } else {
      AcceptRight(c);
    }
  }

  /** A reduction on both stacks. */
  method ReduceStacks(rule: int, states: seq<int>, cells: seq<Cell>, prefs: PrefStore.Prefs, ghost c: Config,
                      ghost objects: set<PrefStore.Section>)
    returns (states': seq<int>, cells': seq<Cell>, ghost objects': set<PrefStore.Section>)
    requires CanReduce(c, rule) && c.states == states && Represents(cells, c.values, objects)
    requires prefs.Valid() && prefs.tree == c.prefs && objects !! prefs.sections
    modifies prefs, objects
    ensures states' == Reduced(c, rule).states && Represents(cells', Reduced(c, rule).values, objects')
    ensures prefs.Valid() && prefs.tree == Reduced(c, rule).prefs && objects' !! prefs.sections
    ensures fresh(objects' - objects) && prefs.sections <= old(prefs.sections) + objects
  {
    hide PrefStore.Section.Valid, PrefStore.Prefs.Valid, CanReduce, Reduced, Represents, Goto, Length;
    ReducedStates(c, rule);
    var cell;
    cell, objects' := Reduce(rule, cells, prefs, c, objects);
    var n := |states| - Length(rule);
    cells' := cells[..|cells| - Length(rule)] + [cell];
    states' := states[..n] + [Goto(rule, states[n - 1])];
  }

  /** yyparse, up to the first syntax error: the store is filled with what the tokens say. */
  method Yyparse(sc: Scanner, prefs: PrefStore.Prefs) returns (ok: bool)
    requires sc.Valid() && prefs.Valid()
    modifies sc, prefs
    ensures prefs.Valid() && fresh(prefs.sections - old(prefs.sections))
    ensures match ParseInput(old(sc.Rest()), [])
            case Ok(tree) => ok && prefs.tree == tree
            case SyntaxError => !ok
  {
    hide ParseInput, ParseSection, Decide, NeedsToken, Default, Shaped, Expect, Reduced, CanReduce, Lex, Rank, Symbol;
    hide PrefStore.Section.Valid, PrefStore.Prefs.Valid, Represents, Goto, Length, SemOf;
    ghost var goal, sections := ParseInput(sc.Rest(), []), prefs.sections;
    ghost var c, objects := Config([0], [Nothing], prefs.tree), {};
    var states, cells, yychar := [0], [Plain(Nothing)], Empty;
    Begins(sc.Rest(), prefs.tree);
    BottomCell();
    while true
      invariant sc.Valid() && prefs.Valid() && Shaped(c) && (yychar.Eof? ==> sc.Rest() == [])
      invariant c.states == states && c.prefs == prefs.tree && Represents(cells, c.values, objects)
      invariant fresh(objects) && objects !! prefs.sections && fresh(prefs.sections - sections)
      invariant Expect(c, ToCome(yychar, sc.Rest())) == goal
      decreases |ToCome(yychar, sc.Rest())|, Rank(if c.states == [] then 0 else Top(c))
    {
      ShapedTop(c);
      var state := states[|states| - 1];
      if state == FINAL {
        return true;
      }
      var act;
      act, yychar := LookAhead(sc, state, yychar, c);
      if act.Fail? {
        return false;
      }
      if act.Shift? {
        var v := if yychar.Tok? then SemOf(yychar.token) else Nothing;
        ShiftStep(c, yychar, sc.Rest(), act.state);
        PlainSem(yychar);
        PushCell(cells, c.values, objects, v);
        c := Push(c, act.state, v);
        states, cells, yychar := states + [act.state], cells + [Plain(v)], Empty;
      } else {
        ReduceKeeps(c, act.rule, ToCome(yychar, sc.Rest()));
        states, cells, objects := ReduceStacks(act.rule, states, cells, prefs, c, objects);
        c := Reduced(c, act.rule);
      }
      ShapedTop(c);
    }
  }

  lemma PlainSem(yychar: Lookahead)
    ensures yychar.Tok? ==> !SemOf(yychar.token).Section?
  {
  }

  lemma BottomCell()
    ensures Represents([Plain(Nothing)], [Nothing], {})
  {
  }

  lemma ReducedStates(c: Config, rule: int)
    requires CanReduce(c, rule)
    ensures 1 <= rule <= 10 && 0 <= Length(rule) < |c.states|
    ensures var n := |c.states| - Length(rule);
      0 <= c.states[n - 1] < 15 && Reduced(c, rule).states == c.states[..n] + [Goto(rule, c.states[n - 1])]
  {
    Gotos();
    hide Goto, Length;
  }
}
