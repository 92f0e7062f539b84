/** The preference store of src/pref.cpp: item vectors with name indexes, updated in place. */
module PrefStore {
  import opened Options
  import opened PrefTree
  import opened PrefLookup

  /** class section; index points to the first entry of each key. */
  class Section {
    var name: string
    var items: seq<SecItem>
    var index: map<string, nat>

    /** The index finds what a linear search for the first match finds. */
    ghost predicate Valid()
      reads this
    {
      forall key :: if key in index then FindKey(items, key) == index[key] < |items| else FindKey(items, key) == |items|
    }

    constructor (name: string)
      ensures Valid() && this.name == name && items == []
    {
      this.name, items, index := name, [], map[];
    }

    /** push_back, then map::insert, which leaves an existing entry alone. */
    method AddItem(it: SecItem)
      requires Valid()
      modifies `items, `index
      ensures Valid() && items == old(items) + [it]
    {
      FoundAfterAppend(items, it);
      if it.KeyVal? && it.key !in index {
        index := index[it.key := |items|];
      }
      items := items + [it];
    }

    method SetName(name: string)
      requires Valid()
      modifies `name
      ensures Valid() && this.name == name
    {
      this.name := name;
    }

    /** section::print */
    method Print() returns (text: string)
      ensures text == PrintItem(Sec(name, items))
    {
      text := "[" + name + "]\n";
      ghost var head := text;
      assert items[0..] == items;
      for i := 0 to |items|
        invariant text + PrintItems(items[i..]) == head + PrintItems(items)
      {
        assert items[i..][0] == items[i] && items[i..][1..] == items[i + 1..];
        assert text + (PrintSecItem(items[i]) + PrintItems(items[i + 1..]))
          == text + PrintSecItem(items[i]) + PrintItems(items[i + 1..]);
        text := text + PrintSecItem(items[i]);
      }
      text := text + "\n";
    }

    predicate KeyExists(key: string)
      reads this
    {
      key in index
    }

    method GetValue(key: string) returns (result: Option<string>)
      requires Valid()
      ensures result == ValueOf(items, key)
    {
      if key !in index {
        return None;
      }
      return Some(items[index[key]].value);
    }

    method AddKey(key: string, value: string)
      requires Valid()
      modifies `items, `index
      ensures Valid() && items == WithValue(old(items), key, value)
      decreases if KeyExists(key) then 1 else 0
    {
      if KeyExists(key) {
        SetValue(key, value);
        return;
      }
      AddItem(KeyVal(key, value));
    }

    method SetValue(key: string, value: string)
      requires Valid()
      modifies `items, `index
      ensures Valid() && items == WithValue(old(items), key, value)
      decreases if KeyExists(key) then 0 else 1
    {
      if !KeyExists(key) {
        AddKey(key, value);
        return;
      }
      FoundAfterReplace(items, key, value);
      items := items[index[key] := KeyVal(key, value)];
    }
  }

  lemma FoundAfterAppend(items: seq<SecItem>, it: SecItem)
    ensures forall key ::
      FindKey(items + [it], key)
        == if FindKey(items, key) == |items| && !IsKey(it, key) then |items| + 1 else FindKey(items, key)
  {
    var more := items + [it];
    forall key
      ensures FindKey(more, key)
          == if FindKey(items, key) == |items| && !IsKey(it, key) then |items| + 1 else FindKey(items, key)
    {
      if FindKey(items, key) < |items| || IsKey(it, key) {
        FoundFirst(more, key, FindKey(items, key));
      } else {
        FoundNowhere(more, key);
      }
    }
  }

  lemma FoundAfterReplace(items: seq<SecItem>, key: string, value: string)
    requires FindKey(items, key) < |items|
    ensures forall k :: FindKey(items[FindKey(items, key) := KeyVal(key, value)], k) == FindKey(items, k)
  {
    var after := items[FindKey(items, key) := KeyVal(key, value)];
    assert forall i :: 0 <= i < |items| ==> (IsKey(after[i], key) <==> IsKey(items[i], key));
    forall k
      ensures FindKey(after, k) == FindKey(items, k)
    {
      if FindKey(items, k) < |items| {
        FoundFirst(after, k, FindKey(items, k));
      } else {
        FoundNowhere(after, k);
      }
    }
  }

  /** An entry of the top-level vector: a section object or a comment. */
  datatype Item = Ref(s: Section) | Remark(text: string)

  const SIZE_T := 0x1_0000_0000_0000_0000

  /** The index finds the section that a linear search for the first of that name finds. */
  ghost predicate IndexAgrees(tree: Tree, items: seq<Item>, index: map<string, Section>) {
    && |items| == |tree|
    && forall name {:trigger name in index} ::
         if name in index then FindSection(tree, name) < |tree| && items[FindSection(tree, name)] == Ref(index[name])
         else FindSection(tree, name) == |tree|
  }

  /** The section objects are among those owned, and no two entries share one. */
  ghost predicate Separate(items: seq<Item>, sections: set<Section>) {
    && (forall i :: 0 <= i < |items| && items[i].Ref? ==> items[i].s in sections)
    && forall i, j :: 0 <= i < j < |items| && items[i].Ref? && items[j].Ref? ==> items[i].s != items[j].s
  }

  /** An entry of the vector and its value. */
  ghost predicate Shown(it: Item, shown: PrefItem)
    reads if it.Ref? then {it.s} else {}
  {
    match it
    case Ref(s) => s.Valid() && shown == Sec(s.name, s.items)
    case Remark(c) => shown == PrefComment(c)
  }

  lemma SeparateAppend(items: seq<Item>, sections: set<Section>, s: Section)
    requires Separate(items, sections) && s !in sections
    ensures Separate(items + [Ref(s)], sections + {s})
  {
  }

  lemma OthersApart(items: seq<Item>, sections: set<Section>, n: nat)
    requires Separate(items, sections) && n < |items| && items[n].Ref?
    ensures forall i :: 0 <= i < |items| && i != n && items[i].Ref? ==> items[i].s != items[n].s
  {
  }

  lemma SeparateRemark(items: seq<Item>, sections: set<Section>, text: string)
    requires Separate(items, sections)
    ensures Separate(items + [Remark(text)], sections)
  {
  }

  /** class prefs */
  class Prefs {
    var items: seq<Item>
    var index: map<string, Section>
    var changed: bool

    ghost var tree: Tree  // the value of the store
    ghost var sections: set<Section>  // the objects it owns

    ghost predicate Valid()
      reads this, sections
    {
      && IndexAgrees(tree, items, index) && Separate(items, sections)
      && forall i :: 0 <= i < |items| ==> Shown(items[i], tree[i])
    }

    /** An indexed section is shown by the first part of its name. */
    lemma Indexed(name: string)
      requires Valid() && name in index
      ensures var n := FindSection(tree, name);
        n < |tree| == |items| && items[n] == Ref(index[name]) && index[name] in sections && index[name].Valid()
        && tree[n] == Sec(index[name].name, index[name].items)
    {
      hide FindSection, Section.Valid;
      var n := FindSection(tree, name);
      assert items[n] == Ref(index[name]) && Shown(items[n], tree[n]);
    }

    constructor ()
      ensures Valid() && tree == [] && !changed && sections == {}
    {
      items, index, changed := [], map[], false;
      tree, sections := [], {};
    }

    method Clear()
      modifies this
      ensures Valid() && tree == [] && !changed && sections == {}
    {
      changed := false;
      items := [];
      index := map[];
      tree, sections := [], {};
    }

    method ResetChangeFlag()
      requires Valid()
      modifies `changed
      ensures Valid() && !changed
    {
      changed := false;
    }

    /** addItem with registerItself, for a comment */
    method AddComment(text: string)
      requires Valid()
      modifies this
      ensures Valid() && changed && tree == old(tree) + [PrefComment(text)] && sections == old(sections)
    {
      hide FindSection, Separate, Section.Valid;
      FoundAfterAddition(tree, PrefComment(text));
      SeparateRemark(items, sections, text);
      changed := true;
      items := items + [Remark(text)];
      tree := tree + [PrefComment(text)];
    }

    /** addItem with registerItself, for a section: map::insert leaves an existing entry alone. */
    method AddItem(s: Section)
      requires Valid() && s !in sections && s.Valid()
      modifies this
      ensures Valid() && changed && tree == old(tree) + [Sec(s.name, s.items)] && sections == old(sections) + {s}
      ensures index.Keys == old(index).Keys + {s.name}
    {
      hide FindSection, Section.Valid, IndexAgrees, Separate;
      Registered(tree, items, index, s, s.name, Sec(s.name, s.items));
      SeparateAppend(items, sections, s);
      changed := true;
      items := items + [Ref(s)];
      if s.name !in index {
        index := index[s.name := s];
      }
      tree, sections := tree + [Sec(s.name, s.items)], sections + {s};
    }

    /** operator<< for the whole store */
    method Print() returns (text: string)
      requires Valid()
      ensures text == PrintTree(tree)
    {
      hide PrintTree, PrintItem, FindSection, IndexAgrees, Separate, Shown;
      AllShown();
      text := "";
      PrintBegins(tree);
      for i := 0 to |items|
        invariant text + PrintTree(tree[i..]) == PrintTree(tree)
      {
        PrintNext(tree, i, text);
        var entry := PrintEntry(items[i], tree[i]);
        text := text + entry + "\n";
      }
      PrintEnds(tree);
      text := text + "\n";
    }

    lemma AllShown()
      requires Valid()
      ensures |items| == |tree| && forall i :: 0 <= i < |items| ==> Shown(items[i], tree[i])
    {
    }

    predicate SectionExists(sec: string)
      reads this
    {
      sec in index
    }

    method GetValue(sec: string, key: string) returns (result: Option<string>)
      requires Valid()
      ensures result == Lookup(tree, sec, key)
    {
      hide FindSection;
      if sec !in index {
        return None;
      }
      Indexed(sec);
      result := index[sec].GetValue(key);
    }

    /** addSection for a given name */
    method AddSection(name: string)
      requires Valid()
      modifies this
      ensures Valid() && tree == WithSection(old(tree), name) && name in index
      ensures changed == (old(changed) || old(name !in index)) && fresh(sections - old(sections))
    {
      hide FindSection;
      if SectionExists(name) {
        return;
      }
      var s := new Section(name);
      AddItem(s);
    }

    /** The section just created or found takes over a changed list of entries. */
    ghost method Update(n: nat, after: seq<SecItem>)
      requires IndexAgrees(tree, items, index) && Separate(items, sections) && n < |items|
      requires items[n].Ref? && items[n].s.Valid() && tree[n].Sec?
      requires items[n].s.name == tree[n].name && items[n].s.items == after
      requires forall i :: 0 <= i < |items| && i != n ==> Shown(items[i], tree[i])
      modifies `tree
      ensures Valid() && tree == old(tree)[n := Sec(old(tree)[n].name, after)]
    {
      hide FindSection, Section.Valid, Separate;
      ghost var u := tree[n := Sec(tree[n].name, after)];
      NamesDecide(tree, u);
      tree := u;
      assert Shown(items[n], tree[n]);
    }

    method SetValue(sec: string, key: string, value: string)
      requires Valid()
      modifies this, sections
      ensures Valid() && changed && fresh(sections - old(sections))
      ensures tree == WithSetting(old(tree), sec, key, value)
    {
      hide FindSection, WithValue, Section.Valid, Separate, IndexAgrees;
      AddSection(sec);
      changed := true;
      Indexed(sec);
      ghost var n := FindSection(tree, sec);
      var s := index[sec];
      OthersApart(items, sections, n);
      s.SetValue(key, value);
      Update(n, WithValue(tree[n].items, key, value));
    }

    method AddKey(sec: string, key: string, value: string)
      requires Valid()
      modifies this, sections
      ensures Valid() && changed && fresh(sections - old(sections))
      ensures tree == WithSetting(old(tree), sec, key, value)
    {
      hide FindSection, WithValue, Section.Valid, Separate, IndexAgrees;
      AddSection(sec);
      changed := true;
      Indexed(sec);
      ghost var n := FindSection(tree, sec);
      var s := index[sec];
      OthersApart(items, sections, n);
      s.AddKey(key, value);
      Update(n, WithValue(tree[n].items, key, value));
    }

    /** The probing loop of addSection for a template. */
    method FreeName(template: string) returns (ok: bool, name: string)
      ensures ok ==> name !in index
      ensures ok ==> exists n: nat :: Probed(template, n, name, index.Keys)
      ensures !ok ==> SIZE_T <= |index.Keys|
    {
      var cntr := 0;
      while true
        invariant cntr < SIZE_T
        invariant forall k: nat :: k < cntr ==> template + Padded(k) in index.Keys
        decreases SIZE_T - cntr
      {
        var tmpName := template + Padded(cntr);
        Pigeonhole(template, cntr, index.Keys);
        if !SectionExists(tmpName) {
          assert Probed(template, cntr, tmpName, index.Keys);
          return true, tmpName;
        }
        cntr := cntr + 1;
        if cntr == SIZE_T {
          break;
        }
      }
      Pigeonhole(template, SIZE_T, index.Keys);
      ok, name := false, "";
    }

    /** addSection for a template: the name itself, or the first free numbered one. */
    method AddUniqueSection(template: string) returns (ok: bool, name: string)
      requires Valid()
      modifies this
      ensures Valid() && fresh(sections - old(sections))
      ensures ok ==> FindSection(old(tree), name) == |old(tree)| && tree == old(tree) + [Sec(name, [])]
      ensures ok ==> name == template || exists n: nat :: Probed(template, n, name, old(index).Keys)
      ensures !ok ==> tree == old(tree) && SIZE_T <= |old(index).Keys|
    {
      hide FindSection, Probed;
      if !SectionExists(template) {
        name := template;
        AddSection(name);
        return true, name;
      }
      ok, name := FreeName(template);
      if ok {
        AddSection(name);
      }
    }
  }

  /** The n-th generated name was free; all before it were taken, so n is at most the number of names taken. */
  ghost predicate Probed(template: string, n: nat, name: string, taken: set<string>) {
    && name == template + Padded(n) && name !in taken && n <= |taken|
    && forall k: nat :: k < n ==> template + Padded(k) in taken
  }

  /** One entry of the vector, by its own print method. */
  method PrintEntry(it: Item, ghost shown: PrefItem) returns (text: string)
    requires Shown(it, shown)
    ensures text == PrintItem(shown)
  {
    match it
    case Ref(s) => text := s.Print();
    case Remark(c) => text := "###" + c + "\n";
  }

  lemma PrintBegins(t: Tree)
    ensures "" + PrintTree(t[0..]) == PrintTree(t)
  {
    assert t[0..] == t;
  }

  lemma PrintNext(t: Tree, i: nat, text: string)
    requires i < |t|
    ensures text + PrintTree(t[i..]) == text + PrintItem(t[i]) + "\n" + PrintTree(t[i + 1..])
  {
    hide PrintItem;
    assert t[i..][0] == t[i] && t[i..][1..] == t[i + 1..];
  }

  lemma PrintEnds(t: Tree)
    ensures PrintTree(t[|t|..]) == "\n"
  {
  }

  lemma Registered(tree: Tree, items: seq<Item>, index: map<string, Section>, s: Section, name: string, it: PrefItem)
    requires IndexAgrees(tree, items, index) && it.Sec? && it.name == name
    ensures IndexAgrees(tree + [it], items + [Ref(s)], if name in index then index else index[name := s])
    ensures |items| == |tree|
  {
    hide FindSection;
    FoundAfterAddition(tree, it);
    var index' := if name in index then index else index[name := s];
    forall k
      ensures if k in index' then
                FindSection(tree + [it], k) < |tree + [it]|
                  && (items + [Ref(s)])[FindSection(tree + [it], k)] == Ref(index'[k])
              else FindSection(tree + [it], k) == |tree + [it]|
    {
      assert k in index <==> FindSection(tree, k) < |tree|;
    }
  }

  lemma NamesDecide(t: Tree, u: Tree)
    requires |t| == |u| && forall i, name :: 0 <= i < |t| ==> (IsSection(u[i], name) <==> IsSection(t[i], name))
    ensures forall name :: FindSection(u, name) == FindSection(t, name)
  {
    forall name
      ensures FindSection(u, name) == FindSection(t, name)
    {
      if FindSection(t, name) < |t| {
        FoundFirstSection(u, name, FindSection(t, name));
      } else {
        FoundNoSection(u, name);
      }
    }
  }

  lemma FoundAfterAddition(t: Tree, it: PrefItem)
    ensures forall name ::
      FindSection(t + [it], name)
        == if FindSection(t, name) == |t| && !IsSection(it, name) then |t| + 1 else FindSection(t, name)
  {
    var more := t + [it];
    forall name
      ensures FindSection(more, name)
          == if FindSection(t, name) == |t| && !IsSection(it, name) then |t| + 1 else FindSection(t, name)
    {
      if FindSection(t, name) < |t| || IsSection(it, name) {
        FoundFirstSection(more, name, FindSection(t, name));
      } else {
        FoundNoSection(more, name);
      }
    }
  }
}
