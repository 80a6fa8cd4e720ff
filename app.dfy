/** The part of the application state that a verb reads, and the commands a
    verb hands back to the application driver. */
module App {
  import opened Outcomes

  /** A filesystem path as a root marker and a sequence of components:
      `/a/b` is `Path(true, ["a", "b"])`, `/` is `Path(true, [])`. */
  datatype Path = Path(absolute: bool, components: seq<string>)

  /** `Path::parent` returns `Some` exactly when there is a last component to drop:
      `/` and the empty relative path have no parent. */
  predicate HasParent(p: Path)
  {
    |p.components| > 0
  }

  /** The parent directory: the same path without its last component. */
  function Parent(p: Path): (q: Path)
    requires HasParent(p)
    ensures q.absolute == p.absolute
    ensures |q.components| + 1 == |p.components|
    ensures q.components + [p.components[|p.components| - 1]] == p.components
  {
    Path(p.absolute, p.components[..|p.components| - 1])
  }

  function Join(parts: seq<string>, sep: string): string
  {
    if |parts| == 0 then ""
    else if |parts| == 1 then parts[0]
    else parts[0] + sep + Join(parts[1..], sep)
  }

  /** The display text of a path, the components separated by `/`. */
  function Display(p: Path): string
  {
    (if p.absolute then "/" else "") + Join(p.components, "/")
  }

  /** The tree display options. Only `showHidden` is read or written by the
      verbs; the other flags are carried along unchanged. */
  datatype TreeOptions = TreeOptions(showHidden: bool, otherFlags: map<string, bool>)

  /** A tree, reduced to the path of its selected line. Every tree has a
      selected line (at least its root). */
  datatype Tree = Tree(selectedPath: Path)

  /** The application state a verb executes against. */
  datatype AppState = AppState(tree: Tree, filteredTree: Option<Tree>, options: TreeOptions)

  /** What the application driver must do next; `L` is the launch request type. */
  datatype CmdResult<L> =
    | PopState
    | NewRoot(root: Path)
    | NewOptions(options: TreeOptions)
    | Launch(launchable: L)
    | Quit
}

/** The process launcher, which builds requests to open a path or to run a
    command line. It lives outside the verbs; both constructors may fail. */
module External {
  import opened Outcomes
  import opened App

  /** `opener` stands for `Launchable::opener`, `from` for `Launchable::from`. */
  datatype Launcher<L> = Launcher(opener: Path -> Result<L>, from: string -> Result<L>)
}
