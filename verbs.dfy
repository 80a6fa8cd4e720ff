/** Verbs: actions bound to an invocation key. `Execute` decides, without
    changing anything, what the application must do for a verb; `VerbStore`
    holds the verbs read from the configuration. */
module Verbs {
  import opened Outcomes
  import opened App
  import opened External
  import Template

  /** A verb: a display name and an exec pattern, which is one of the built-in
      sentinels or a command template. */
  datatype Verb = Verb(name: string, execPattern: string)

  /** One verb record of the configuration. */
  datatype VerbConf = VerbConf(invocation: string, name: string, execution: string)

  /** The exec patterns handled by the application itself. */
  predicate IsBuiltin(pattern: string)
  {
    pattern == ":back" || pattern == ":focus" || pattern == ":toggle_hidden"
    || pattern == ":open" || pattern == ":parent" || pattern == ":quit"
  }

  /** The path of the selected line: in the filtered tree when there is one,
      in the full tree otherwise. */
  function SelectedPath(state: AppState): (p: Path)
    ensures state.filteredTree.Some? ==> p == state.filteredTree.value.selectedPath
    ensures state.filteredTree.None? ==> p == state.tree.selectedPath
  {
    match state.filteredTree
    case Some(tree) => tree.selectedPath
    case None => state.tree.selectedPath
  }

  /** A copy of the options with `showHidden` negated. */
  function ToggledHidden(options: TreeOptions): (toggled: TreeOptions)
    ensures toggled.showHidden == !options.showHidden
    ensures toggled.otherFlags == options.otherFlags
  {
    options.(showHidden := !options.showHidden)
  }

  /** The `?` on a launcher call: a failure is passed on as it is, a request
      becomes a `Launch` command. */
  function LaunchOrFail<L>(request: Result<L>): (r: Result<CmdResult<L>>)
    ensures r.Err? <==> request.Err?
    ensures r.Err? ==> r.error == request.error
    ensures r.Ok? ==> r.value == Launch(request.value)
  {
    match request
    case Ok(launchable) => Ok(Launch(launchable))
    case Err(e) => Err(e)
  }

  /** What the application must do for `verb`. The selected path must have a
      parent when the verb is `:parent`, or the source panics. Each kind of
      command comes from exactly its sentinels, and only `:open` and templates
      can fail. */
  function Execute<L>(verb: Verb, state: AppState, launcher: Launcher<L>): (r: Result<CmdResult<L>>)
    requires verb.execPattern == ":parent" ==> HasParent(SelectedPath(state))
    ensures (r.Ok? && r.value.PopState?) <==> verb.execPattern == ":back"
    ensures (r.Ok? && r.value.Quit?) <==> verb.execPattern == ":quit"
    ensures (r.Ok? && r.value.NewOptions?) <==> verb.execPattern == ":toggle_hidden"
    ensures (r.Ok? && r.value.NewRoot?) <==> (verb.execPattern == ":focus" || verb.execPattern == ":parent")
    ensures (r.Err? || r.value.Launch?) <==> (verb.execPattern == ":open" || !IsBuiltin(verb.execPattern))
  {
    var path := SelectedPath(state);
    match verb.execPattern
    case ":back" => Ok(PopState)
    case ":focus" => Ok(NewRoot(path))
    case ":toggle_hidden" => Ok(NewOptions(ToggledHidden(state.options)))
    case ":open" => LaunchOrFail(launcher.opener(path))
    case ":parent" => Ok(NewRoot(Parent(path)))
    case ":quit" => Ok(Quit)
    case _ => LaunchOrFail(launcher.from(Template.Substitute(verb.execPattern, Display(path))))
  }

  /** The built-ins other than `:open` never consult the launcher. */
  lemma BuiltinsIgnoreLauncher<L>(verb: Verb, state: AppState, l1: Launcher<L>, l2: Launcher<L>)
    requires IsBuiltin(verb.execPattern) && verb.execPattern != ":open"
    requires verb.execPattern == ":parent" ==> HasParent(SelectedPath(state))
    ensures Execute(verb, state, l1) == Execute(verb, state, l2)
  {
  }

  /** `:focus` makes the selected path the new root, taken from the filtered
      tree when there is one. */
  lemma FocusSelectsFilteredFirst<L>(verb: Verb, state: AppState, launcher: Launcher<L>)
    requires verb.execPattern == ":focus"
    ensures state.filteredTree.Some? ==>
      Execute(verb, state, launcher) == Ok(NewRoot(state.filteredTree.value.selectedPath))
    ensures state.filteredTree.None? ==>
      Execute(verb, state, launcher) == Ok(NewRoot(state.tree.selectedPath))
  {
  }

  /** `:toggle_hidden` hands back a copy of the options that differs from the
      caller's in `showHidden` only. */
  lemma ToggleHiddenCopyOnWrite<L>(verb: Verb, state: AppState, launcher: Launcher<L>)
    requires verb.execPattern == ":toggle_hidden"
    ensures var r := Execute(verb, state, launcher);
      && r.Ok? && r.value.NewOptions?
      && r.value.options.showHidden == !state.options.showHidden
      && r.value.options.otherFlags == state.options.otherFlags
  {
  }

  /** Toggling twice, the second time on the options the first produced,
      gives back the original options. */
  lemma ToggleHiddenInvolution<L>(verb: Verb, state: AppState, launcher: Launcher<L>)
    requires verb.execPattern == ":toggle_hidden"
    ensures var first := Execute(verb, state, launcher);
      && first.Ok? && first.value.NewOptions?
      && Execute(verb, state.(options := first.value.options), launcher) == Ok(NewOptions(state.options))
  {
  }

  /** `:parent` makes the parent of the selected path the new root. */
  lemma ParentDropsLastComponent<L>(verb: Verb, state: AppState, launcher: Launcher<L>)
    requires verb.execPattern == ":parent" && HasParent(SelectedPath(state))
    ensures var r := Execute(verb, state, launcher);
      var p := SelectedPath(state);
      && r.Ok? && r.value.NewRoot?
      && r.value.root.absolute == p.absolute
      && r.value.root.components + [p.components[|p.components| - 1]] == p.components
  {
  }

  /** `:open` asks the launcher for an opener of the selected path: its
      failure is the result, and otherwise its request is launched. */
  lemma OpenPropagates<L>(verb: Verb, state: AppState, launcher: Launcher<L>)
    requires verb.execPattern == ":open"
    ensures var r := Execute(verb, state, launcher);
      var request := launcher.opener(SelectedPath(state));
      && (r.Err? <==> request.Err?)
      && (r.Err? ==> r.error == request.error)
      && (r.Ok? ==> r.value == Launch(request.value))
  {
  }

  /** A template is substituted against the selected path's text and the
      command line handed to the launcher: its failure is the result, and
      otherwise its request is launched. */
  lemma TemplatePropagates<L>(verb: Verb, state: AppState, launcher: Launcher<L>)
    requires !IsBuiltin(verb.execPattern)
    ensures var r := Execute(verb, state, launcher);
      var request := launcher.from(Template.Substitute(verb.execPattern, Display(SelectedPath(state))));
      && (r.Err? <==> request.Err?)
      && (r.Err? ==> r.error == request.error)
      && (r.Ok? ==> r.value == Launch(request.value))
  {
  }

  /** A pattern that is no sentinel and holds no placeholder, such as `:backx`
      or ` :back`, reaches the launcher exactly as written. */
  lemma PlainTemplatePassedAsIs<L>(verb: Verb, state: AppState, launcher: Launcher<L>)
    requires !IsBuiltin(verb.execPattern) && Template.NoPlaceholder(verb.execPattern)
    ensures Execute(verb, state, launcher) == LaunchOrFail(launcher.from(verb.execPattern))
  {
    Template.SubstituteNoPlaceholder(verb.execPattern, Display(SelectedPath(state)));
  }

  /** In particular a pattern without `{` that is no sentinel. */
  lemma BraceFreeTemplatePassedAsIs<L>(verb: Verb, state: AppState, launcher: Launcher<L>)
    requires !IsBuiltin(verb.execPattern) && '{' !in verb.execPattern
    ensures Execute(verb, state, launcher) == LaunchOrFail(launcher.from(verb.execPattern))
  {
    var text := Display(SelectedPath(state));
    Template.SubstituteLiteralPrefix(verb.execPattern, "", text);
    assert verb.execPattern + "" == verb.execPattern;
  }

  // ---- The verb store ----

  function VerbOf(conf: VerbConf): Verb
  {
    Verb(conf.name, conf.execution)
  }

  /** The bindings after inserting the records of `conf`, in order, into `m`. */
  function Filled(m: map<string, Verb>, conf: seq<VerbConf>): map<string, Verb>
  {
    if conf == [] then m
    else
      var last := conf[|conf| - 1];
      Filled(m, conf[..|conf| - 1])[last.invocation := VerbOf(last)]
  }

  /** A key is bound to the verb of the last record that names it. */
  lemma {:induction false} FilledLastWriterWins(m: map<string, Verb>, conf: seq<VerbConf>, i: int)
    requires 0 <= i < |conf|
    requires forall j :: i < j < |conf| ==> conf[j].invocation != conf[i].invocation
    ensures conf[i].invocation in Filled(m, conf)
    ensures Filled(m, conf)[conf[i].invocation] == VerbOf(conf[i])
  {
    if i < |conf| - 1 {
      var prefix := conf[..|conf| - 1];
      assert prefix[i] == conf[i];
      FilledLastWriterWins(m, prefix, i);
    }
  }

  /** A key that no record names keeps its previous binding, or stays unbound. */
  lemma {:induction false} FilledUntouched(m: map<string, Verb>, conf: seq<VerbConf>, key: string)
    requires forall j :: 0 <= j < |conf| ==> conf[j].invocation != key
    ensures key in Filled(m, conf) <==> key in m
    ensures key in m ==> Filled(m, conf)[key] == m[key]
  {
    if conf != [] {
      var prefix := conf[..|conf| - 1];
      assert forall j :: 0 <= j < |prefix| ==> prefix[j] == conf[j];
      FilledUntouched(m, prefix, key);
    }
  }

  /** The invocation keys named by the records. */
  function Invocations(conf: seq<VerbConf>): set<string>
  {
    set j | 0 <= j < |conf| :: conf[j].invocation
  }

  /** Filling binds exactly the old keys and the invocations of the records. */
  lemma {:induction false} FilledKeys(m: map<string, Verb>, conf: seq<VerbConf>)
    ensures Filled(m, conf).Keys == m.Keys + Invocations(conf)
  {
    if conf != [] {
      var prefix := conf[..|conf| - 1];
      FilledKeys(m, prefix);
      assert forall j :: 0 <= j < |prefix| ==> prefix[j] == conf[j];
      assert Invocations(conf) == Invocations(prefix) + {conf[|conf| - 1].invocation};
    }
  }

  /** The verbs by invocation key. */
  class VerbStore {
    var verbs: map<string, Verb>

    /** A new store binds no key. */
    constructor ()
      ensures verbs == map[]
    {
      verbs := map[];
    }

    /** Inserts a verb for each record, in order; a later record for the same
        key replaces an earlier one. */
    method FillFromConf(conf: seq<VerbConf>)
      modifies this
      ensures verbs == Filled(old(verbs), conf)
    {
      for i := 0 to |conf|
        invariant verbs == Filled(old(verbs), conf[..i])
      {
        var verbConf := conf[i];
        verbs := verbs[verbConf.invocation := Verb(verbConf.name, verbConf.execution)];
        assert conf[..i + 1][..i] == conf[..i];
      }
      assert conf[..|conf|] == conf;
    }

    /** The verb bound to `key`, if any: exact lookup. */
    function Get(key: string): (r: Option<Verb>)
      reads this
      ensures r.Some? <==> key in verbs
      ensures r.Some? ==> r.value == verbs[key]
    {
      if key in verbs then Some(verbs[key]) else None
    }
  }
}
