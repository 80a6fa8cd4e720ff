/** Placeholder substitution in exec patterns: every non-overlapping span
    matching `\{([\w.]+)\}`, taken left to right, is replaced by the selected
    path's text (identifier `file`) or by `-hu?-` (any other identifier). The
    scan is done on the template once; the replacement texts are never scanned. */
module Template {

  /** The identifier characters of the placeholder pattern: word characters
      (here the ASCII letters, digits and `_`) and `.`. */
  predicate IsIdentChar(c: char)
  {
    ('a' <= c <= 'z') || ('A' <= c <= 'Z') || ('0' <= c <= '9') || c == '_' || c == '.'
  }

  predicate IsIdent(id: string)
  {
    |id| > 0 && forall k :: 0 <= k < |id| ==> IsIdentChar(id[k])
  }

  /** `s[i..j + 1]` matches the placeholder pattern: `{`, an identifier, `}`. */
  predicate PlaceholderAt(s: string, i: int, j: int)
  {
    0 <= i && i + 1 < j < |s| && s[i] == '{' && s[j] == '}' && IsIdent(s[i + 1..j])
  }

  /** No span of `s` matches the placeholder pattern. */
  ghost predicate NoPlaceholder(s: string)
  {
    forall i, j :: !PlaceholderAt(s, i, j)
  }

  const FileKey: string := "file"
  const UnknownMarker: string := "-hu?-"

  /** A template seen as a sequence of copied characters and placeholders. */
  datatype Token = Text(c: char) | Placeholder(name: string)

  /** How a token is written in the template. */
  function Spelling(tok: Token): string
  {
    match tok
    case Text(c) => [c]
    case Placeholder(name) => "{" + name + "}"
  }

  function Unparse(ts: seq<Token>): string
  {
    if ts == [] then "" else Spelling(ts[0]) + Unparse(ts[1..])
  }

  /** What a placeholder is replaced by. */
  function Replacement(name: string, fileText: string): string
  {
    if name == FileKey then fileText else UnknownMarker
  }

  /** What a token becomes in the substituted command. */
  function Expansion(tok: Token, fileText: string): string
  {
    match tok
    case Text(c) => [c]
    case Placeholder(name) => Replacement(name, fileText)
  }

  function Render(ts: seq<Token>, fileText: string): string
  {
    if ts == [] then "" else Expansion(ts[0], fileText) + Render(ts[1..], fileText)
  }

  /** The end of the longest run of identifier characters starting at `i`. */
  function IdentRunEnd(s: string, i: nat): (j: nat)
    requires i <= |s|
    ensures i <= j <= |s|
    ensures forall k :: i <= k < j ==> IsIdentChar(s[k])
    ensures j == |s| || !IsIdentChar(s[j])
    decreases |s| - i
  {
    if i < |s| && IsIdentChar(s[i]) then IdentRunEnd(s, i + 1) else i
  }

  /** The left-to-right scan of the template. At a `{` the identifier run is
      taken whole: it cannot be followed by anything but a non-identifier
      character, so the span is a placeholder exactly when that character is
      `}` and the run is not empty. Otherwise the `{` is copied and the scan
      goes on at the next character. */
  function Tokenize(t: string): seq<Token>
    decreases |t|
  {
    if t == "" then []
    else if t[0] == '{' then
      var j := IdentRunEnd(t, 1);
      if 1 < j < |t| && t[j] == '}' then [Placeholder(t[1..j])] + Tokenize(t[j + 1..])
      else [Text('{')] + Tokenize(t[1..])
    else [Text(t[0])] + Tokenize(t[1..])
  }

  lemma {:induction false} UnparseCons(tok: Token, ts: seq<Token>)
    ensures Unparse([tok] + ts) == Spelling(tok) + Unparse(ts)
  {
    assert ([tok] + ts)[0] == tok && ([tok] + ts)[1..] == ts;
  }

  lemma SplitAt(t: string, j: int)
    requires 1 < j < |t| && t[0] == '{' && t[j] == '}'
    ensures "{" + t[1..j] + "}" + t[j + 1..] == t
  {
    assert t == t[..1] + t[1..j] + t[j..j + 1] + t[j + 1..];
  }

  lemma SplitFirst(t: string)
    requires t != ""
    ensures [t[0]] + t[1..] == t
  {
  }

  /** The scan loses nothing: writing the tokens back gives the template. */
  lemma {:induction false} TokenizeUnparse(t: string)
    ensures Unparse(Tokenize(t)) == t
    decreases |t|
  {
    if t != "" {
      var j := IdentRunEnd(t, 1);
      if t[0] == '{' && 1 < j < |t| && t[j] == '}' {
        TokenizeUnparse(t[j + 1..]);
        UnparseCons(Placeholder(t[1..j]), Tokenize(t[j + 1..]));
        SplitAt(t, j);
      } else {
        TokenizeUnparse(t[1..]);
        UnparseCons(Text(t[0]), Tokenize(t[1..]));
        SplitFirst(t);
      }
    }
  }

  /** Every placeholder the scan finds holds an identifier. */
  lemma {:induction false} TokenizeFindsIdents(t: string)
    ensures forall tok :: tok in Tokenize(t) && tok.Placeholder? ==> IsIdent(tok.name)
    decreases |t|
  {
    if t != "" {
      var j := IdentRunEnd(t, 1);
      if t[0] == '{' && 1 < j < |t| && t[j] == '}' {
        TokenizeFindsIdents(t[j + 1..]);
      } else {
        TokenizeFindsIdents(t[1..]);
      }
    }
  }

  /** The substituted command line. */
  function Substitute(t: string, fileText: string): string
  {
    Render(Tokenize(t), fileText)
  }

  // ---- The scan agrees with the leftmost-first semantics of the pattern ----

  /** A placeholder starting at `i` ends at the first `}` after it: two
      matches never start at the same place. */
  lemma PlaceholderEndUnique(s: string, i: int, j1: int, j2: int)
    requires PlaceholderAt(s, i, j1) && PlaceholderAt(s, i, j2)
    ensures j1 == j2
  {
  }

  /** When the template starts with a placeholder, the scan takes exactly that span. */
  lemma TokenizeAtPlaceholder(t: string, j: int)
    requires PlaceholderAt(t, 0, j)
    ensures Tokenize(t) == [Placeholder(t[1..j])] + Tokenize(t[j + 1..])
  {
    var e := IdentRunEnd(t, 1);
    assert e == j;
  }

  /** When no placeholder starts the template, its first character is copied. */
  lemma TokenizeAtText(t: string)
    requires |t| > 0
    requires forall j :: !PlaceholderAt(t, 0, j)
    ensures Tokenize(t) == [Text(t[0])] + Tokenize(t[1..])
  {
    if t[0] == '{' {
      var e := IdentRunEnd(t, 1);
      // the identifier run after the brace is never closed by a `}`
      assert 1 < e ==> IsIdent(t[1..e]);
      assert !PlaceholderAt(t, 0, e);
    }
  }

  // ---- Substitution laws ----

  lemma {:induction false} RenderAppend(a: seq<Token>, b: seq<Token>, fileText: string)
    ensures Render(a + b, fileText) == Render(a, fileText) + Render(b, fileText)
  {
    if a == [] {
      assert a + b == b;
    } else {
      assert (a + b)[0] == a[0] && (a + b)[1..] == a[1..] + b;
      RenderAppend(a[1..], b, fileText);
    }
  }

  /** A character other than `{` is copied, and the scan goes on after it. */
  lemma SubstituteCons(c: char, t: string, fileText: string)
    requires c != '{'
    ensures Substitute([c] + t, fileText) == [c] + Substitute(t, fileText)
  {
    var s := [c] + t;
    assert s[0] == c && s[1..] == t;
    TokenizeAtText(s);
    RenderAppend([Text(c)], Tokenize(t), fileText);
  }

  lemma ConsSplit(p: string, t: string)
    requires p != ""
    ensures p + t == [p[0]] + (p[1..] + t)
  {
    assert p == [p[0]] + p[1..];
  }

  /** Text without `{` is copied unchanged, whatever follows it. */
  lemma {:induction false} SubstituteLiteralPrefix(p: string, t: string, fileText: string)
    requires '{' !in p
    ensures Substitute(p + t, fileText) == p + Substitute(t, fileText)
  {
    if p == "" {
      assert p + t == t;
    } else {
      ConsSplit(p, t);
      SubstituteCons(p[0], p[1..] + t, fileText);
      SubstituteLiteralPrefix(p[1..], t, fileText);
      ConsSplit(p, Substitute(t, fileText));
    }
  }

  /** A leading placeholder is replaced and the scan resumes right after it. */
  lemma SubstitutePlaceholderPrefix(name: string, t: string, fileText: string)
    requires IsIdent(name)
    ensures Substitute("{" + name + "}" + t, fileText) == Replacement(name, fileText) + Substitute(t, fileText)
  {
    var s := "{" + name + "}" + t;
    var j := |name| + 1;
    assert s[1..j] == name;
    assert s[j + 1..] == t;
    assert PlaceholderAt(s, 0, j);
    TokenizeAtPlaceholder(s, j);
    RenderAppend([Placeholder(name)], Tokenize(t), fileText);
  }

  /** A placeholder after brace-free text: the text is kept, the placeholder
      replaced, and the rest substituted on its own. */
  lemma SubstituteSplice(p: string, name: string, t: string, fileText: string)
    requires '{' !in p && IsIdent(name)
    ensures Substitute(p + "{" + name + "}" + t, fileText)
         == p + Replacement(name, fileText) + Substitute(t, fileText)
  {
    var placeholder := "{" + name + "}" + t;
    assert p + "{" + name + "}" + t == p + placeholder;
    SubstituteLiteralPrefix(p, "{" + name + "}" + t, fileText);
    SubstitutePlaceholderPrefix(name, t, fileText);
  }

  lemma ShiftPlaceholder(t: string, i: int, j: int)
    requires |t| > 0 && PlaceholderAt(t[1..], i, j)
    ensures PlaceholderAt(t, i + 1, j + 1)
  {
    assert t[1..][i + 1..j] == t[i + 2..j + 1];
  }

  /** A template in which nothing matches the pattern is returned unchanged. */
  lemma {:induction false} SubstituteNoPlaceholder(t: string, fileText: string)
    requires NoPlaceholder(t)
    ensures Substitute(t, fileText) == t
  {
    if t != "" {
      forall i, j ensures !PlaceholderAt(t[1..], i, j) {
        if PlaceholderAt(t[1..], i, j) {
          ShiftPlaceholder(t, i, j);
        }
      }
      TokenizeAtText(t);
      SubstituteNoPlaceholder(t[1..], fileText);
      RenderAppend([Text(t[0])], Tokenize(t[1..]), fileText);
      assert [t[0]] + t[1..] == t;
    }
  }

  /** Single pass: `{file}` becomes the path text verbatim, even when that
      text itself contains placeholder-shaped spans. */
  lemma FileTextNotRescanned(fileText: string)
    ensures Substitute("{file}", fileText) == fileText
  {
    SubstitutePlaceholderPrefix(FileKey, "", fileText);
    assert "{" + FileKey + "}" + "" == "{file}";
  }

  lemma PlaceholderOpensWithIdentChar(s: string, i: int, j: int)
    requires PlaceholderAt(s, i, j)
    ensures IsIdentChar(s[i + 1])
  {
    assert s[i + 1..j][0] == s[i + 1];
  }

  /** A `{` that does not open a placeholder is copied, and the scan goes on
      at the next character. */
  lemma SubstituteUnmatchedBrace(t: string, fileText: string)
    requires |t| > 0 && t[0] == '{'
    requires forall j :: !PlaceholderAt(t, 0, j)
    ensures Substitute(t, fileText) == "{" + Substitute(t[1..], fileText)
  {
    TokenizeAtText(t);
    RenderAppend([Text('{')], Tokenize(t[1..]), fileText);
  }

  /** Empty braces are not a placeholder and are copied verbatim. */
  lemma SubstituteEmptyBraces(t: string, fileText: string)
    ensures Substitute("{}" + t, fileText) == "{}" + Substitute(t, fileText)
  {
    var s := "{}" + t;
    assert s[1..] == "}" + t;
    forall j ensures PlaceholderAt(s, 0, j) ==> IsIdentChar(s[1]) {
      if PlaceholderAt(s, 0, j) {
        PlaceholderOpensWithIdentChar(s, 0, j);
      }
    }
    SubstituteUnmatchedBrace(s, fileText);
    SubstituteCons('}', t, fileText);
    assert "}" + t == ['}'] + t;
  }

  /** A template without any `}` (an unclosed `{`, say) is returned unchanged. */
  lemma SubstituteNoClosingBrace(t: string, fileText: string)
    requires '}' !in t
    ensures Substitute(t, fileText) == t
  {
    assert forall i, j :: !PlaceholderAt(t, i, j);
    SubstituteNoPlaceholder(t, fileText);
  }

  /** A brace directly around a placeholder is copied: the placeholder inside
      is replaced and the outer braces stay. */
  lemma SubstituteDoubleBraces(name: string, fileText: string)
    requires IsIdent(name)
    ensures Substitute("{" + ("{" + name + "}") + "}", fileText) == "{" + Replacement(name, fileText) + "}"
  {
    var inner := "{" + name + "}" + "}";
    var t := "{" + inner;
    assert t == "{" + ("{" + name + "}") + "}";
    forall j ensures PlaceholderAt(t, 0, j) ==> IsIdentChar(t[1]) {
      if PlaceholderAt(t, 0, j) {
        PlaceholderOpensWithIdentChar(t, 0, j);
      }
    }
    assert t[1..] == inner;
    SubstituteUnmatchedBrace(t, fileText);
    SubstitutePlaceholderPrefix(name, "}", fileText);
    SubstituteLiteralPrefix("}", "", fileText);
    assert "}" + "" == "}";
  }

  /** The substituted command may still hold a placeholder-shaped span: with
      a path text that is an identifier, `{{file}}` becomes `{` + text + `}`. */
  lemma ResidualPlaceholder(fileText: string)
    requires IsIdent(fileText)
    ensures PlaceholderAt(Substitute("{" + ("{" + FileKey + "}") + "}", fileText), 0, |fileText| + 1)
  {
    SubstituteDoubleBraces(FileKey, fileText);
    var r := "{" + fileText + "}";
    assert r[1..|fileText| + 1] == fileText;
  }
}
