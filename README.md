# Verb dispatch and command templates of broot (`src/verbs.rs`)

A model of the verbs of the broot terminal file navigator. A verb is a display
name and an exec pattern, bound to an invocation key in a `VerbStore`.
Executing a verb against the application state decides, without changing that
state, what the application does next: pop the navigation state, set a new
root, install new tree options, launch something, or quit. Six exec patterns
are built-in sentinels (`:back`, `:focus`, `:toggle_hidden`, `:open`,
`:parent`, `:quit`), matched by exact string equality. Any other pattern is a
command template: each span matching `\{([\w.]+)\}` is replaced, left to right
and without rescanning, by the selected path's text (`{file}`) or by `-hu?-`
(any other identifier). The result goes to the external launcher.

Files:

- `outcomes.dfy`: module `Outcomes`, with `Option`, `Result` and `IoError`, an error value whose contents the verbs never read.
- `app.dfy`: module `App`, the part of the application state a verb reads: paths
  as component sequences with `Parent` and `Display`, tree options, the
  selected line and the command results. Also module `External`, the launcher
  as two request constructors that may fail.
- `template.dfy`: module `Template`, the placeholder scanner (`Tokenize`),
  substitution (`Substitute`) and its laws.
- `verbs.dfy`: module `Verbs`, with `Verb`, `Execute`, the `VerbStore` class and
  the properties of dispatch and of filling the store.
- `scenarios.dfy`: module `Scenarios`, with the worked end-to-end cases.

Design:

- `Execute` is a pure function. The launcher is passed in as a `Launcher<L>`
  value holding two functions. So "the launcher is not consulted" becomes
  "the result does not depend on the launcher" (`BuiltinsIgnoreLauncher`).
- `:parent` calls `unwrap` in the source, which panics when the path has no
  parent. The model makes this a precondition of `Execute`.
- Substitution is a scan into tokens followed by rendering. The scan never
  sees the replacement text, which is why substitution is single-pass.
  `TokenizeAtPlaceholder` and `TokenizeAtText` show that the scan agrees with
  the pattern's leftmost-first matching, as stated by `PlaceholderAt`.
- `VerbStore` is a class. Its `map<string, Verb>` field is updated by a `for`
  loop in `FillFromConf`. Its contract is the function `Filled`, and the
  last-writer-wins and frame properties are proved about `Filled`.

Placeholder-shaped text can survive substitution:

- `Substitute` does not guarantee that the command line it produces holds no
  span matching the pattern. `ResidualPlaceholder` shows that `{{file}}` with
  path text `x` gives `{x}`; `FileTextNotRescanned` shows the same for a path
  text that contains such a span.

## Model

| member | source | states |
|---|---|---|
| `Verbs.Execute` | src/verbs.rs:22-54 | Each kind of result comes from exactly its sentinels: PopState iff `:back`, Quit iff `:quit`, NewOptions iff `:toggle_hidden`, NewRoot iff `:focus` or `:parent`, and Launch or a failure iff `:open` or a non-sentinel pattern. Requires a parent for `:parent`. |
| `Verbs.SelectedPath` | src/verbs.rs:23-26 | The selected line's path: the filtered tree's when a filtered tree exists, the full tree's otherwise. |
| `Verbs.ToggledHidden` | src/verbs.rs:32-33 | A copy of the options with `showHidden` negated and every other flag unchanged. |
| `Verbs.LaunchOrFail` | src/verbs.rs:36 | The `?` on a launcher call: fails iff the request failed, with the same error; otherwise Launch of the request. |
| `App.Display` | src/verbs.rs:47 | The path's display text: its components joined by `/`, preceded by `/` for an absolute path. |
| `Template.Tokenize` | src/verbs.rs:40-50 | The left-to-right, non-overlapping scan of the template into copied characters and placeholders (its properties are the `Tokenize*` lemmas). |
| `Template.Substitute` | src/verbs.rs:44-50 | The substituted command line: each scanned token rendered, `file` as the path text and other names as `-hu?-` (its properties are the `Substitute*` lemmas). |
| `Verbs.Filled` | src/verbs.rs:63-73 | The map after inserting the verb of each record under its invocation, in record order (its properties are the `Filled*` lemmas). |
| `Verbs.BuiltinsIgnoreLauncher` | src/verbs.rs:28-38 | For every sentinel except `:open`, the result is the same whatever the launcher. |
| `Verbs.FocusSelectsFilteredFirst` | src/verbs.rs:23-30 | `:focus` gives NewRoot of the filtered tree's selected path when a filtered tree exists, and of the full tree's otherwise. |
| `Verbs.ToggleHiddenCopyOnWrite` | src/verbs.rs:31-35 | `:toggle_hidden` gives NewOptions whose `showHidden` is the negation of the caller's and whose other flags are the caller's. |
| `Verbs.ToggleHiddenInvolution` | src/verbs.rs:31-35 | Toggling again on the options produced by a toggle gives back exactly the original options. |
| `Verbs.ParentDropsLastComponent` | src/verbs.rs:37 | `:parent` gives NewRoot of the selected path without its last component, with the same root marker. |
| `App.Parent` | src/verbs.rs:37 | The parent has one component less, and appending the dropped component gives back the path. |
| `Verbs.OpenPropagates` | src/verbs.rs:36 | `:open` fails iff the opener fails, with the same error. Otherwise it launches the opener's request. |
| `Verbs.TemplatePropagates` | src/verbs.rs:39-51 | A non-sentinel pattern fails iff the launcher rejects the substituted command line, with the same error. Otherwise it launches that request. |
| `Verbs.PlainTemplatePassedAsIs` | src/verbs.rs:39-51 | A non-sentinel pattern in which nothing matches the placeholder pattern reaches the launcher unchanged. |
| `Verbs.BraceFreeTemplatePassedAsIs` | src/verbs.rs:39-51 | A non-sentinel pattern without `{` reaches the launcher unchanged. |
| `Template.IdentRunEnd` | src/verbs.rs:41 | Returns the end of the longest run of identifier characters from a position: all characters before it are identifier characters, and the one at it is not (or the text ends). |
| `Template.PlaceholderEndUnique` | src/verbs.rs:41 | Two placeholder matches starting at the same `{` end at the same `}`. |
| `Template.TokenizeAtPlaceholder` | src/verbs.rs:41-50 | When a placeholder match starts the text, the scan emits exactly that placeholder and resumes after its `}`. |
| `Template.TokenizeAtText` | src/verbs.rs:41-50 | When no placeholder match starts the text, the scan copies the first character and resumes at the next one. |
| `Template.TokenizeUnparse` | src/verbs.rs:44-50 | Writing the scanned tokens back gives the template, so the scan drops and reorders nothing. |
| `Template.TokenizeFindsIdents` | src/verbs.rs:41-46 | Every placeholder found holds a non-empty identifier. |
| `Template.RenderAppend` | src/verbs.rs:44-50 | Rendering distributes over concatenation of token sequences. |
| `Template.SubstituteLiteralPrefix` | src/verbs.rs:44-50 | Text with no `{` is copied unchanged, and what follows is substituted on its own. |
| `Template.SubstitutePlaceholderPrefix` | src/verbs.rs:45-49 | A leading `{id}` becomes the path text if `id` is `file` and `-hu?-` otherwise, and the scan resumes right after it. |
| `Template.SubstituteSplice` | src/verbs.rs:44-50 | In brace-free text followed by `{id}` and more, the text is kept, the placeholder replaced in place, and the rest substituted on its own. |
| `Template.SubstituteNoPlaceholder` | src/verbs.rs:44-51 | A template with no placeholder match is returned unchanged. |
| `Template.FileTextNotRescanned` | src/verbs.rs:44-50 | `{file}` becomes the path text verbatim for every path text, even one containing placeholder-shaped spans. |
| `Template.SubstituteUnmatchedBrace` | src/verbs.rs:41-50 | A `{` that does not start a match is copied, and substitution resumes at the next character. |
| `Template.SubstituteEmptyBraces` | src/verbs.rs:41 | `{}` is not a placeholder and is copied verbatim. |
| `Template.SubstituteNoClosingBrace` | src/verbs.rs:41 | A template without `}` (an unclosed `{`) is returned unchanged. |
| `Template.SubstituteDoubleBraces` | src/verbs.rs:41-50 | In `{{id}}` the inner placeholder is replaced and the outer braces are kept. |
| `Template.ResidualPlaceholder` | src/verbs.rs:44-51 | With a path text that is an identifier, substituting `{{file}}` leaves a span that matches the placeholder pattern. |
| `Verbs.FilledLastWriterWins` | src/verbs.rs:63-73 | After inserting the records in order, a key is bound to the verb (name and exec pattern) of the last record with that invocation. |
| `Verbs.FilledUntouched` | src/verbs.rs:63-73 | A key that no record names keeps its previous binding, or stays unbound. |
| `Verbs.FilledKeys` | src/verbs.rs:63-73 | The bound keys afterwards are the previous keys plus the records' invocations. |
| `Verbs.VerbStore.constructor` | src/verbs.rs:58-62 | A new store binds no key. |
| `Verbs.VerbStore.FillFromConf` | src/verbs.rs:63-73 | The new bindings are the old bindings with the records inserted in order (`Filled`). Only the store's map changes. |
| `Verbs.VerbStore.Get` | src/verbs.rs:74-76 | Returns Some iff the key is bound, and then the bound verb. |
| `Scenarios.TwoPlaceholdersExample` | src/verbs.rs:44-50 | `{file} {bogus}` against path text `/a/b` (or any other) gives `/a/b -hu?-`. |
| `Scenarios.NearMissesAreTemplates` | src/verbs.rs:28-39 | `:backx` and ` :back` are not sentinels and reach the launcher as written. |
| `Scenarios.NewStoreIsEmpty` | src/verbs.rs:58-76 | A lookup in a new store finds nothing, for every key. |
| `Scenarios.SameKeyTwice` | src/verbs.rs:63-76 | With two records for one key, the lookup returns the second record's verb. |
| `Scenarios.OpenScenario` | src/verbs.rs:36 | Key `o` bound to `:open`, selection `/tmp/x`: the result is the opener's request for `/tmp/x`. |
| `Scenarios.EditScenario` | src/verbs.rs:44-51 | Key `e` bound to `edit {file}`, selection `/tmp/x.txt`: the launcher receives `edit /tmp/x.txt`. |
| `Scenarios.ParentScenario` | src/verbs.rs:37 | `:parent` with selection `/a/b` gives NewRoot(`/a`). |

## Left out

- `Launchable::opener` and `Launchable::from` build OS process requests in a module that is not part of this model. They are function parameters that may fail, and the request type is a type parameter.
- `Conf` parsing, the trees of `AppState` and `selected_line` are not part of this model. A tree is reduced to the path of its selected line. The options are a `showHidden` flag and a map of other flags that the verbs never read.
- The regex engine and its `lazy_static` initialisation are replaced by a hand-written scanner. Regex `\w` is Unicode-aware; the model takes only ASCII letters, digits and `_` as word characters, plus `.`.
- `to_string_lossy`: the path's display text is its components joined by `/`, with a leading `/` for absolute paths. Lossy decoding of bytes that are not valid UTF-8 is not modelled.
- `io::Error` details: an error is a value whose contents the verbs never read; they pass it on unchanged.
- Only paths with normalized components (non-empty, without `/`) are meant; for other `Path` values `Display` and `Parent` do not match Rust's `Path`, and spellings that `to_string_lossy` would keep, such as a trailing `/`, are not represented.
- Verbs.Execute: the panic of `:parent` on a path without a parent is a precondition, not a modelled abort.
- References and borrowing: `get` returns a reference to the stored verb; the model returns a copy, which is the same thing for an immutable value. `HashMap` hashing and iteration order play no part in the code and are not modelled.
