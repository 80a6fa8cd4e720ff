/** Worked scenarios: a registry filled from configuration records, then a
    verb looked up and executed against a selection. */
module Scenarios {
  import opened Outcomes
  import opened App
  import opened External
  import opened Template
  import opened Verbs

  /** `{file} {bogus}` against a path text such as `/a/b` gives `/a/b -hu?-`. */
  lemma TwoPlaceholdersExample(fileText: string)
    ensures Substitute("{file}" + " " + "{bogus}", fileText) == fileText + " -hu?-"
  {
    SubstituteSplice(" ", "bogus", "", fileText);
    assert " " + "{" + "bogus" + "}" + "" == " " + "{bogus}";
    SubstitutePlaceholderPrefix(FileKey, " " + "{bogus}", fileText);
    assert "{" + FileKey + "}" + (" " + "{bogus}") == "{file}" + " " + "{bogus}";
  }

  /** Sentinels match exactly: `:backx` and ` :back` are templates without
      placeholders and reach the launcher exactly as written. */
  lemma NearMissesAreTemplates<L>(state: AppState, launcher: Launcher<L>)
    ensures Execute(Verb("", ":back" + "x"), state, launcher) == LaunchOrFail(launcher.from(":back" + "x"))
    ensures Execute(Verb("", " " + ":back"), state, launcher) == LaunchOrFail(launcher.from(" " + ":back"))
  {
    var backx, spaced := ":back" + "x", " " + ":back";
    assert backx[1] == 'b' && |backx| == 6 && backx[5] == 'x';
    assert spaced[0] == ' ' && |spaced| == 6 && spaced[5] == 'k';
    assert forall k | 0 <= k < 6 :: backx[k] != '{' && spaced[k] != '{';
    BraceFreeTemplatePassedAsIs(Verb("", backx), state, launcher);
    BraceFreeTemplatePassedAsIs(Verb("", spaced), state, launcher);
  }

  /** Looking up any key in a new store finds nothing. */
  method NewStoreIsEmpty(key: string) returns (found: Option<Verb>)
    ensures found == None
  {
    var store := new VerbStore();
    found := store.Get(key);
  }

  /** Two records for the same key: the second one is kept. */
  method SameKeyTwice() returns (found: Option<Verb>)
    ensures found == Some(Verb("second", ":quit"))
  {
    var store := new VerbStore();
    store.FillFromConf([VerbConf("q", "first", ":back"), VerbConf("q", "second", ":quit")]);
    found := store.Get("q");
  }

  /** Key `o` bound to `:open`, selection `/tmp/x`: the result is the
      launcher's opener for `/tmp/x`. */
  method OpenScenario<L>(launcher: Launcher<L>) returns (r: Result<CmdResult<L>>)
    ensures r == LaunchOrFail(launcher.opener(Path(true, ["tmp", "x"])))
  {
    var store := new VerbStore();
    store.FillFromConf([VerbConf("o", "open", ":open")]);
    var found := store.Get("o");
    var state := AppState(Tree(Path(true, ["tmp", "x"])), None, TreeOptions(false, map[]));
    r := Execute(found.value, state, launcher);
  }

  /** Key `e` bound to `edit {file}`, selection `/tmp/x.txt`: the launcher
      gets the command line `edit /tmp/x.txt`. */
  method EditScenario<L>(launcher: Launcher<L>) returns (r: Result<CmdResult<L>>)
    ensures r == LaunchOrFail(launcher.from("edit " + "/tmp/x.txt"))
  {
    var store := new VerbStore();
    store.FillFromConf([VerbConf("e", "edit", "edit " + "{file}")]);
    var found := store.Get("e");
    var path := Path(true, ["tmp", "x.txt"]);
    var state := AppState(Tree(path), None, TreeOptions(false, map[]));
    assert Display(path) == "/tmp/x.txt";
    assert found == Some(Verb("edit", "edit " + "{file}"));
    SubstituteSplice("edit ", FileKey, "", "/tmp/x.txt");
    assert "edit " + "{" + FileKey + "}" + "" == "edit " + "{file}";
    assert Substitute("edit " + "{file}", "/tmp/x.txt") == "edit " + "/tmp/x.txt";
    TemplatePropagates(found.value, state, launcher);
    r := Execute(found.value, state, launcher);
  }

  /** `:parent` with selection `/a/b` makes `/a` the new root. */
  method ParentScenario<L>(launcher: Launcher<L>) returns (r: Result<CmdResult<L>>)
    ensures r == Ok(NewRoot(Path(true, ["a"])))
  {
    var state := AppState(Tree(Path(true, ["a", "b"])), None, TreeOptions(false, map[]));
    r := Execute(Verb("parent", ":parent"), state, launcher);
    assert ["a", "b"][..1] == ["a"];
  }
}
