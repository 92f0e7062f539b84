/** The one store of preferences of src/pref.cpp, its file, and what saving and reading do to both. */
module PrefSave {
  import opened Options
  import opened PrefTree
  import opened PrefScanner
  import PrefLoad
  import opened PrefLookup
  import opened PrefRoundTrip
  import PrefStore

  class Preferences {
    var prf: PrefStore.Prefs?
    var prefsOk: bool  // what reading came to when it was last done

    var file: Option<string>
    var backup: Option<string>  // the file with the suffix .old
    var draft: Option<string>  // the one with the suffix .new

    ghost predicate Valid()
      reads this, prf, if prf == null then {} else prf.sections
    {
      prf != null ==> prf.Valid()
    }

    /** What the program can look up. */
    ghost function Shown(): Tree
      reads this, prf
    {
      if prf == null then [] else prf.tree
    }

    constructor ()
      ensures Valid() && Shown() == [] && !prefsOk && file == backup == draft == None
    {
      prf, prefsOk, file, backup, draft := null, false, None, None, None;
    }

    /** getPrefs */
    method GetPrefs() returns (p: PrefStore.Prefs)
      requires Valid()
      modifies `prf
      ensures Valid() && p == prf && p.tree == old(Shown()) && (old(prf) != null ==> p == old(prf))
      ensures old(prf) == null ==> fresh(p)
    {
      if prf == null {
        prf := new PrefStore.Prefs();
      }
      p := prf;
    }

    /** parse_prefs: whichever store it was to fill, on failure the one of the program is freed. */
    method ParsePrefs(text: Option<string>, prefs: PrefStore.Prefs) returns (ok: bool)
      requires Valid() && prefs.Valid()
      modifies `prf, prefs
      ensures prefs.Valid() && Valid()
      ensures ok <==> text.Some? && Parse(text.value).Ok?
      ensures ok ==> prf == old(prf) && prefs.tree == Parse(text.value).tree && !prefs.changed
      ensures !ok ==> prf == null
    {
      hide PrefStore.Prefs.Valid, PrefParser.ParseInput, Lex;
      ok := false;
      if text.Some? {
        var sc := new Scanner(text.value);
        ok := PrefLoad.Yyparse(sc, prefs);
        if ok {
          prefs.ResetChangeFlag();
          return;
        }
      }
      prf := null;
    }

    /** ltr_int_read_prefs */
    method ReadPrefs(force: bool) returns (ok: bool)
      requires Valid()
      modifies this, prf
      ensures Valid() && ok == prefsOk && file == old(file) && backup == old(backup)
      ensures !force && old(prefsOk) ==> ok && Shown() == old(Shown())
      ensures force || !old(prefsOk) ==>
        && ok == (file.Some? && Parse(file.value).Ok?)
        && Shown() == if ok then Parse(file.value).tree else []
    {
      hide PrefStore.Prefs.Valid, Parse;
      if force || !prefsOk {
        var p := GetPrefs();
        p.Clear();
        prefsOk := ParsePrefs(file, p);
      }
      ok := prefsOk;
    }

    /** ltr_int_save_prefs: when the new file cannot be read back the program keeps the old file, but loses the
        store. */
    method SavePrefs() returns (ok: bool)
      requires Valid()
      modifies this, prf
      ensures Valid() && ok == Parse(PrintTree(old(Shown()))).Ok? && prefsOk == old(prefsOk)
      ensures prf == old(prf) || prf == null || fresh(prf)
      ensures ok ==> prf != null && !prf.changed && Shown() == old(Shown())
      ensures ok ==> file == Some(PrintTree(old(Shown()))) && backup == old(file)
      ensures !ok ==> Shown() == [] && file == old(file) && backup == old(backup)
    {
      hide PrefStore.Prefs.Valid, Parse, PrintTree;
      var p := GetPrefs();
      var text := p.Print();
      draft := Some(text);
      var check := new PrefStore.Prefs();
      ok := ParsePrefs(draft, check);
      if !ok {
        return;
      }
      backup := None;
      backup, file := file, None;
      file, draft := draft, None;
      p := GetPrefs();
      p.ResetChangeFlag();
    }

    /** Saving, and reading back in: everything is there again exactly if a file can hold it. */
    method SaveAndRead() returns (ok: bool)
      requires Valid()
      modifies this, prf
      ensures Valid() && (ok <==> Parse(PrintTree(old(Shown()))).Ok?)
      ensures ok && Shown() == Bump(old(Shown())) <==> WellFormed(old(Shown()))
      ensures WellFormed(old(Shown())) ==>
        forall sec, key :: Lookup(Shown(), sec, key) == Lookup(old(Shown()), sec, key)
    {
      hide PrefStore.Prefs.Valid, WellFormed, Bump, Parse, PrintTree, Lookup;
      ghost var t := Shown();
      RoundTrip(t);
      ok := SavePrefs();
      if ok {
        ok := ReadPrefs(true);
      }
      if WellFormed(t) {
        forall sec, key
          ensures Lookup(Shown(), sec, key) == Lookup(t, sec, key)
        {
          SettingsSurvive(t, sec, key);
        }
      }
    }
  }
}
