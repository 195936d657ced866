/** The pylint fixer's line surgery: `add_module_docstring` inserts a module
    docstring after the shebang and encoding lines unless the first code line
    already opens one, and `add_function_docstrings` inserts a one-line
    docstring after every public function definition that lacks one, working
    from the bottom of the file up. Reading and writing the file become the
    content passed in and the content written out; the syntax tree becomes
    the list of function definitions it holds. */
module Docstrings {
  import opened Wrappers
  import opened Text

  const TripleDouble: string := "\"\"\""
  const TripleSingle: string := "'''"

  /** A line whose stripped text is neither empty nor a "#" comment. */
  predicate IsCodeLine(line: string) {
    var stripped := Strip(line);
    stripped != "" && !StartsWith(stripped, "#")
  }

  /** A line whose stripped text starts with three double or single quotes. */
  predicate OpensDocstring(line: string) {
    var stripped := Strip(line);
    StartsWith(stripped, TripleDouble) || StartsWith(stripped, TripleSingle)
  }

  /** A shebang line, or a line declaring the source encoding. */
  predicate IsHeaderLine(line: string) {
    StartsWith(line, "#!") || Contains(line, "coding:") || Contains(line, "encoding:")
  }

  /** The line `add_module_docstring` tests: the first code line, or line 0
      when every line is blank or a comment. */
  function FirstCodeLine(lines: seq<string>): (i: nat)
    requires lines != []
    ensures i < |lines|
    ensures forall j | 0 <= j < i :: !IsCodeLine(lines[j])
    ensures IsCodeLine(lines[i]) || (i == 0 && forall j | 0 <= j < |lines| :: !IsCodeLine(lines[j]))
  {
    FirstFromScan(lines, IsCodeLine, 0);
    FirstFrom(lines, IsCodeLine, 0)
  }

  /** The scan for the first line from line `j` on that satisfies `p`; 0
      when there is none. */
  function FirstFrom(lines: seq<string>, p: string -> bool, j: nat): nat
    requires j <= |lines|
    decreases |lines| - j
  {
    if j == |lines| then 0
    else if p(lines[j]) then j
    else FirstFrom(lines, p, j + 1)
  }

  lemma {:induction false} FirstFromScan(lines: seq<string>, p: string -> bool, j: nat)
    requires j <= |lines|
    requires forall k | 0 <= k < j :: !p(lines[k])
    ensures var i := FirstFrom(lines, p, j);
      || (j <= i < |lines| && p(lines[i]) && forall k | 0 <= k < i :: !p(lines[k]))
      || (i == 0 && forall k | 0 <= k < |lines| :: !p(lines[k]))
    decreases |lines| - j
  {
    if j < |lines| && !p(lines[j]) {
      FirstFromScan(lines, p, j + 1);
    }
  }

  /** The insert index: the length of the leading run of header lines. */
  function HeaderLength(lines: seq<string>): (k: nat)
    ensures k <= |lines|
    ensures forall j | 0 <= j < k :: IsHeaderLine(lines[j])
    ensures k == |lines| || !IsHeaderLine(lines[k])
  {
    RunFromScan(lines, IsHeaderLine, 0);
    RunFrom(lines, IsHeaderLine, 0)
  }

  /** The scan for the end of the run of lines satisfying `p` from line `j`
      on. */
  function RunFrom(lines: seq<string>, p: string -> bool, j: nat): nat
    requires j <= |lines|
    decreases |lines| - j
  {
    if j == |lines| || !p(lines[j]) then j else RunFrom(lines, p, j + 1)
  }

  lemma {:induction false} RunFromScan(lines: seq<string>, p: string -> bool, j: nat)
    requires j <= |lines|
    requires forall k | 0 <= k < j :: p(lines[k])
    ensures var h := RunFrom(lines, p, j);
      && j <= h <= |lines|
      && (forall k | 0 <= k < h :: p(lines[k]))
      && (h == |lines| || !p(lines[h]))
    decreases |lines| - j
  {
    if j < |lines| && p(lines[j]) {
      RunFromScan(lines, p, j + 1);
    }
  }

  /** `lines.insert(k, line)`. */
  function Inserted(lines: seq<string>, k: nat, line: string): (r: seq<string>)
    requires k <= |lines|
    ensures |r| == |lines| + 1 && r[k] == line && r[..k] == lines[..k] && r[k + 1..] == lines[k..]
  {
    lines[..k] + [line] + lines[k..]
  }

  /** The parts of the file's path that name the module. */
  datatype SourcePath = SourcePath(stem: string, name: string, parentName: string)

  /** The module name: the file stem with "_" read as a space, title-cased;
      for `__init__.py`, the parent directory's name so treated plus
      " module". */
  function ModuleName(path: SourcePath): string {
    if path.name == "__init__.py" then Title(ReplaceChar(path.parentName, '_', ' ')) + " module"
    else Title(ReplaceChar(path.stem, '_', ' '))
  }

  /** The inserted line: the docstring text with its two trailing line feeds
      stripped. */
  function ModuleDocstring(path: SourcePath): string {
    RStrip(TripleDouble + ModuleName(path) + " module." + TripleDouble + "\n\n")
  }

  lemma ModuleDocstringText(path: SourcePath)
    ensures ModuleDocstring(path) == TripleDouble + ModuleName(path) + " module." + TripleDouble
  {
    var t := TripleDouble + ModuleName(path) + " module." + TripleDouble;
    var raw := t + "\n\n";
    assert raw[..|raw| - 1] == t + "\n";
    assert (t + "\n")[..|t|] == t;
    assert RStrip(raw) == RStrip(t + "\n") == RStrip(t);
    assert t[|t| - 1] == '"';
  }

  lemma TitleAgents()
    ensures Title("agents") == "Agents"
  {
    assert TitleAfter("", true) == "";
    assert TitleAfter("s", true) == "s";
    assert TitleAfter("ts", true) == "ts";
    assert TitleAfter("nts", true) == "nts";
    assert TitleAfter("ents", true) == "ents";
    assert TitleAfter("gents", true) == "gents";
    assert TitleAfter("agents", false) == [UpperChar('a')] + "gents";
  }

  /** A package's `__init__.py` is named after its directory, so its
      docstring says "module" twice: that of `src/agents/__init__.py`. */
  lemma InitDocstringRepeatsModule()
    ensures ModuleName(SourcePath("__init__", "__init__.py", "agents")) == "Agents module"
    ensures ModuleDocstring(SourcePath("__init__", "__init__.py", "agents"))
         == TripleDouble + "Agents module" + " module." + TripleDouble
  {
    var path := SourcePath("__init__", "__init__.py", "agents");
    assert ReplaceChar("agents", '_', ' ') == "agents";
    TitleAgents();
    ModuleDocstringText(path);
  }

  /** The first loop of `add_module_docstring`: the index of the first
      code line, 0 when there is none. */
  method FindFirstCodeLine(lines: seq<string>) returns (firstCodeLine: nat)
    requires lines != []
    ensures firstCodeLine == FirstCodeLine(lines)
  {
    firstCodeLine := 0;
    var i := 0;
    while i < |lines|
      invariant i <= |lines|
      invariant firstCodeLine == 0
      invariant FirstFrom(lines, IsCodeLine, i) == FirstCodeLine(lines)
    {
      if IsCodeLine(lines[i]) {
        firstCodeLine := i;
        break;
      }
      i := i + 1;
    }
  }

  /** The second loop of `add_module_docstring`: the index just past the
      leading header lines. */
  method FindInsertIndex(lines: seq<string>) returns (insertIndex: nat)
    ensures insertIndex == HeaderLength(lines)
  {
    insertIndex := 0;
    var i := 0;
    while i < |lines|
      invariant i <= |lines|
      invariant insertIndex == i
      invariant RunFrom(lines, IsHeaderLine, i) == HeaderLength(lines)
    {
      if IsHeaderLine(lines[i]) {
        insertIndex := i + 1;
      } else {
        break;
      }
      i := i + 1;
    }
  }

  /** The line surgery of `add_module_docstring` on the file's lines: no
      change when the first code line opens a docstring, otherwise
      `docstring` inserted after the leading header lines. */
  method InsertModuleDocstring(lines: seq<string>, docstring: string) returns (added: bool, result: seq<string>)
    requires lines != []
    ensures added <==> !OpensDocstring(lines[FirstCodeLine(lines)])
    ensures added ==> result == Inserted(lines, HeaderLength(lines), docstring)
    ensures !added ==> result == lines
  {
    var firstCodeLine := FindFirstCodeLine(lines);
    if firstCodeLine < |lines| && OpensDocstring(lines[firstCodeLine]) {
      return false, lines;
    }
    var insertIndex := FindInsertIndex(lines);
    added, result := true, lines[..insertIndex] + [docstring] + lines[insertIndex..];
  }

  /** `add_module_docstring`: whether a docstring was added, and the content
      written back (`None` when the file is left alone). */
  method AddModuleDocstring(content: string, path: SourcePath) returns (added: bool, written: Option<string>)
    ensures var lines := Split(content, '\n');
      && (added <==> !OpensDocstring(lines[FirstCodeLine(lines)]))
      && (added ==> written == Some(Join(Inserted(lines, HeaderLength(lines), ModuleDocstring(path)), "\n")))
      && (!added ==> written == None)
  {
    var lines := Split(content, '\n');
    var result;
    added, result := InsertModuleDocstring(lines, ModuleDocstring(path));
    written := if added then Some(Join(result, "\n")) else None;
  }

  /** A text that neither starts nor ends with whitespace is its own strip. */
  lemma StripUnchanged(s: string)
    requires s != [] && !IsSpace(s[0]) && !IsSpace(s[|s| - 1])
    ensures Strip(s) == s
  {
    assert LStrip(s) == s;
    assert RStrip(s) == s;
  }

  /** A line that opens with three double quotes and ends with a quote is a
      code line that opens a docstring. */
  lemma QuotedLineOpensDocstring(line: string)
    requires StartsWith(line, TripleDouble) && line[|line| - 1] == '"'
    ensures Strip(line) == line && IsCodeLine(line) && OpensDocstring(line)
  {
    StripUnchanged(line);
  }

  /** The module docstring is one line that opens a docstring. */
  lemma ModuleDocstringOpens(path: SourcePath)
    requires '\n' !in ModuleName(path)
    ensures var doc := ModuleDocstring(path);
      '\n' !in doc && IsCodeLine(doc) && OpensDocstring(doc)
  {
    ModuleDocstringText(path);
    QuotedNameOpensDocstring(ModuleName(path));
  }

  /** The line the module docstring is, for any name without line feeds. */
  lemma QuotedNameOpensDocstring(name: string)
    requires '\n' !in name
    ensures var doc := TripleDouble + name + " module." + TripleDouble;
      '\n' !in doc && IsCodeLine(doc) && OpensDocstring(doc)
  {
    var a := TripleDouble + name;
    var b := a + " module.";
    var doc := b + TripleDouble;
    assert '\n' !in TripleDouble && '\n' !in " module.";
    assert '\n' !in a && '\n' !in b;
    assert doc[..3] == a[..3] == TripleDouble;
    assert doc[|doc| - 1] == '"';
    QuotedLineOpensDocstring(doc);
  }

  /** Inserting a line without line feeds into lines without line feeds:
      joining and splitting again gives back the lines. */
  lemma InsertedSplitsBack(lines: seq<string>, k: nat, line: string)
    requires k <= |lines|
    requires forall j | 0 <= j < |lines| :: '\n' !in lines[j]
    requires '\n' !in line
    ensures Split(Join(Inserted(lines, k, line), "\n"), '\n') == Inserted(lines, k, line)
  {
    var out := Inserted(lines, k, line);
    forall j | 0 <= j < |out|
      ensures '\n' !in out[j]
    {
      if j < k {
        assert out[j] == lines[..k][j];
      } else if j > k {
        assert out[j] == lines[k..][j - k - 1];
      }
    }
    SplitJoin(out, '\n');
  }

  /** A code line inserted after lines that are not code becomes the first
      code line. */
  lemma InsertedFirstCode(lines: seq<string>, k: nat, line: string)
    requires k <= |lines|
    requires forall j | 0 <= j < k :: !IsCodeLine(lines[j])
    requires IsCodeLine(line)
    ensures FirstCodeLine(Inserted(lines, k, line)) == k
  {
    var out := Inserted(lines, k, line);
    assert forall j | 0 <= j < k :: out[j] == lines[..k][j];
    var f := FirstCodeLine(out);
    assert IsCodeLine(out[k]);
  }

  /** Once a docstring was added, the written file splits back into the new
      lines and its first code line is the docstring, so a second run leaves
      the file alone, provided the leading header lines are comments, as a
      shebang and an encoding declaration are. */
  lemma SecondRunFindsDocstring(content: string, path: SourcePath)
    requires forall j | 0 <= j < HeaderLength(Split(content, '\n')) :: !IsCodeLine(Split(content, '\n')[j])
    requires '\n' !in ModuleName(path)
    ensures var lines := Split(content, '\n');
      var out := Inserted(lines, HeaderLength(lines), ModuleDocstring(path));
      && Split(Join(out, "\n"), '\n') == out
      && OpensDocstring(out[FirstCodeLine(out)])
  {
    var lines := Split(content, '\n');
    var k := HeaderLength(lines);
    ModuleDocstringOpens(path);
    InsertedSplitsBack(lines, k, ModuleDocstring(path));
    InsertedFirstCode(lines, k, ModuleDocstring(path));
  }

  // ------------------------------------------------ function docstrings

  /** What the syntax tree says about one function definition: its 1-based
      line, its name, and whether it has a docstring. */
  datatype FunctionDef = FunctionDef(lineno: nat, name: string, hasDocstring: bool)

  /** At most one definition starts on a line. */
  predicate DistinctLines(defs: seq<FunctionDef>) {
    forall i, j | 0 <= i < j < |defs| :: defs[i].lineno != defs[j].lineno
  }

  /** What the syntax tree of a file of `lineCount` lines guarantees: every
      definition starts on one of its lines, at most one per line. */
  predicate WellPlaced(defs: seq<FunctionDef>, lineCount: nat) {
    && (forall i | 0 <= i < |defs| :: 1 <= defs[i].lineno <= lineCount)
    && DistinctLines(defs)
  }

  /** A public definition without a docstring. */
  predicate Qualifies(f: FunctionDef) {
    !f.hasDocstring && !StartsWith(f.name, "_")
  }

  /** The width of a line's leading whitespace. */
  function IndentOf(line: string): nat {
    |line| - |LStrip(line)|
  }

  /** The docstring line for a function defined on `defLine`. */
  function FunctionDocstring(defLine: string, name: string): string {
    Spaces(IndentOf(defLine) + 4) + TripleDouble + Title(ReplaceChar(name, '_', ' ')) + " function." + TripleDouble
  }

  lemma {:induction false} LStripSpaces(n: nat, s: string)
    requires s != [] && !IsSpace(s[0])
    ensures LStrip(Spaces(n) + s) == s
  {
    if n > 0 {
      assert (Spaces(n) + s)[1..] == Spaces(n - 1) + s;
      LStripSpaces(n - 1, s);
    } else {
      assert Spaces(0) + s == s;
    }
  }

  /** A text indented by `n` spaces strips to the text. */
  lemma IndentedStrip(n: nat, text: string)
    requires text != [] && !IsSpace(text[0]) && !IsSpace(text[|text| - 1])
    ensures LStrip(Spaces(n) + text) == text && Strip(Spaces(n) + text) == text
  {
    LStripSpaces(n, text);
    StripUnchanged(text);
  }

  /** The inserted line is indented four columns past the definition and
      opens a docstring. */
  lemma FunctionDocstringShape(defLine: string, name: string)
    ensures var doc := FunctionDocstring(defLine, name);
      && IndentOf(doc) == IndentOf(defLine) + 4
      && OpensDocstring(doc) && IsCodeLine(doc)
  {
    var n := IndentOf(defLine) + 4;
    var text := TripleDouble + Title(ReplaceChar(name, '_', ' ')) + " function." + TripleDouble;
    assert FunctionDocstring(defLine, name) == Spaces(n) + text;
    assert text[..3] == TripleDouble;
    QuotedLineOpensDocstring(text);
    IndentedStrip(n, text);
  }

  // sorting

  predicate StrictlyDescending(fs: seq<FunctionDef>) {
    forall i, j | 0 <= i < j < |fs| :: fs[i].lineno > fs[j].lineno
  }

  /** Inserts `f` after every definition whose line is below it. */
  function InsertByLineno(fs: seq<FunctionDef>, f: FunctionDef): (r: seq<FunctionDef>)
    ensures multiset(r) == multiset(fs) + multiset{f}
  {
    if fs == [] then [f]
    else if fs[0].lineno < f.lineno then [f] + fs
    else
      assert fs == [fs[0]] + fs[1..];
      [fs[0]] + InsertByLineno(fs[1..], f)
  }

  lemma {:induction false} InsertKeepsDescending(fs: seq<FunctionDef>, f: FunctionDef)
    requires StrictlyDescending(fs)
    requires forall g | g in fs :: g.lineno != f.lineno
    ensures StrictlyDescending(InsertByLineno(fs, f))
  {
    if fs != [] && fs[0].lineno >= f.lineno {
      var rest := InsertByLineno(fs[1..], f);
      InsertKeepsDescending(fs[1..], f);
      assert fs[0] in fs;
      forall j | 0 <= j < |rest|
        ensures fs[0].lineno > rest[j].lineno
      {
        assert rest[j] in multiset(rest);
        if rest[j] != f {
          assert rest[j] in multiset(fs[1..]);
          var p :| 0 <= p < |fs[1..]| && fs[1..][p] == rest[j];
          assert fs[p + 1] == rest[j];
        }
      }
      assert InsertByLineno(fs, f) == [fs[0]] + rest;
    }
  }

  /** `functions.sort(key=lambda x: x.lineno, reverse=True)`: the same
      definitions, bottom one first. */
  function SortByLinenoDescending(fs: seq<FunctionDef>): (r: seq<FunctionDef>)
    ensures multiset(r) == multiset(fs)
  {
    if fs == [] then []
    else
      assert fs == fs[..|fs| - 1] + [fs[|fs| - 1]];
      InsertByLineno(SortByLinenoDescending(fs[..|fs| - 1]), fs[|fs| - 1])
  }

  /** Definitions on distinct lines sort into strictly descending order. */
  lemma {:induction false} SortedDescending(fs: seq<FunctionDef>)
    requires DistinctLines(fs)
    ensures StrictlyDescending(SortByLinenoDescending(fs))
  {
    if fs != [] {
      var init := fs[..|fs| - 1];
      var last := fs[|fs| - 1];
      assert DistinctLines(init);
      SortedDescending(init);
      var sorted := SortByLinenoDescending(init);
      assert forall g | g in sorted :: g.lineno != last.lineno by {
        forall g | g in sorted
          ensures g.lineno != last.lineno
        {
          assert g in multiset(init);
          var p :| 0 <= p < |init| && init[p] == g;
          assert fs[p] == g;
        }
      }
      InsertKeepsDescending(sorted, last);
    }
  }

  // the result, described line by line

  /** The names of the qualifying definitions, keyed by line number: every
      qualifying definition's line is a key. */
  function DocNames(defs: seq<FunctionDef>): (r: map<nat, string>)
    ensures forall f | f in defs && Qualifies(f) :: f.lineno in r
  {
    if defs == [] then map[]
    else
      var last := defs[|defs| - 1];
      assert defs == defs[..|defs| - 1] + [last];
      var init := DocNames(defs[..|defs| - 1]);
      if Qualifies(last) then init[last.lineno := last.name] else init
  }

  /** The lines from `j` on, each followed by the docstring line `docLine`
      makes of it and the function named for its line number, if any. */
  function Expand(lines: seq<string>, names: map<nat, string>, docLine: (string, string) -> string, j: nat): (r: seq<string>)
    requires j <= |lines|
    ensures |lines| - j <= |r| <= 2 * (|lines| - j)
    ensures j < |lines| ==> r[0] == lines[j]
    decreases |lines| - j
  {
    if j == |lines| then []
    else [lines[j]] + (if j + 1 in names then [docLine(lines[j], names[j + 1])] else [])
         + Expand(lines, names, docLine, j + 1)
  }

  /** Lines between `lo` and `hi` that get no docstring are copied as they are. */
  lemma {:induction false} ExpandSkip(lines: seq<string>, names: map<nat, string>, docLine: (string, string) -> string, lo: nat, hi: nat)
    requires lo <= hi <= |lines|
    requires forall k | k in names :: k <= lo || k > hi
    ensures Expand(lines, names, docLine, lo) == lines[lo..hi] + Expand(lines, names, docLine, hi)
    decreases hi - lo
  {
    if lo < hi {
      ExpandSkip(lines, names, docLine, lo + 1, hi);
      assert lines[lo..hi] == [lines[lo]] + lines[lo + 1..hi];
    }
  }

  /** Expansion from `j` on reads only the names after line `j`. */
  lemma {:induction false} ExpandAgree(lines: seq<string>, n1: map<nat, string>, n2: map<nat, string>, docLine: (string, string) -> string, j: nat)
    requires j <= |lines|
    requires forall k | k > j :: (k in n1 <==> k in n2) && (k in n1 ==> n1[k] == n2[k])
    ensures Expand(lines, n1, docLine, j) == Expand(lines, n2, docLine, j)
    decreases |lines| - j
  {
    if j < |lines| {
      ExpandAgree(lines, n1, n2, docLine, j + 1);
    }
  }

  /** The keys in `(j, n]`. */
  function KeysAfter(names: map<nat, string>, j: nat, n: nat): set<nat> {
    set k | k in names && j < k <= n
  }

  lemma KeysAfterStep(names: map<nat, string>, j: nat, n: nat)
    requires j < n
    ensures |KeysAfter(names, j, n)| == |KeysAfter(names, j + 1, n)| + if j + 1 in names then 1 else 0
  {
    var s0 := KeysAfter(names, j, n);
    var s1 := KeysAfter(names, j + 1, n);
    if j + 1 in names {
      assert s0 == s1 + {j + 1};
    } else {
      assert s0 == s1;
    }
  }

  /** The expansion holds every line once plus one docstring line per key. */
  lemma {:induction false} ExpandLength(lines: seq<string>, names: map<nat, string>, docLine: (string, string) -> string, j: nat)
    requires j <= |lines|
    ensures |Expand(lines, names, docLine, j)| == |lines| - j + |KeysAfter(names, j, |lines|)|
    decreases |lines| - j
  {
    if j < |lines| {
      ExpandLength(lines, names, docLine, j + 1);
      KeysAfterStep(names, j, |lines|);
    }
  }

  /** Line `i` of the file lands after the docstring lines inserted above it,
      and its own docstring line, if it gets one, right after it. */
  lemma {:induction false} ExpandPlacesLine(lines: seq<string>, names: map<nat, string>, docLine: (string, string) -> string, j: nat, i: nat)
    requires j <= i < |lines|
    ensures var r := Expand(lines, names, docLine, j);
      var p := i - j + |KeysAfter(names, j, i)|;
      && p < |r| && r[p] == lines[i]
      && (i + 1 in names ==> p + 1 < |r| && r[p + 1] == docLine(lines[i], names[i + 1]))
    decreases i - j
  {
    var r := Expand(lines, names, docLine, j);
    var head := [lines[j]] + (if j + 1 in names then [docLine(lines[j], names[j + 1])] else []);
    assert r == head + Expand(lines, names, docLine, j + 1);
    if j < i {
      ExpandPlacesLine(lines, names, docLine, j + 1, i);
      KeysAfterStep(names, j, i);
    } else {
      assert KeysAfter(names, j, i) == {};
      ExpandLength(lines, names, docLine, j + 1);
    }
  }

  /** Adding a definition on a line of its own adds its name, if it
      qualifies. */
  lemma DocNamesSnoc(fs: seq<FunctionDef>, f: FunctionDef)
    ensures DocNames(fs + [f]) == if Qualifies(f) then DocNames(fs)[f.lineno := f.name] else DocNames(fs)
  {
    assert (fs + [f])[..|fs|] == fs;
  }

  /** The sorted definitions are the same definitions, bottom one first. */
  lemma SortedWellPlaced(defs: seq<FunctionDef>, lineCount: nat)
    requires WellPlaced(defs, lineCount)
    ensures var sorted := SortByLinenoDescending(defs);
      && StrictlyDescending(sorted)
      && (forall i | 0 <= i < |sorted| :: 1 <= sorted[i].lineno <= lineCount)
      && forall f :: f in sorted <==> f in defs
  {
    var sorted := SortByLinenoDescending(defs);
    SortedDescending(defs);
    forall f
      ensures f in sorted <==> f in defs
    {
      assert f in sorted <==> f in multiset(sorted);
    }
    forall i | 0 <= i < |sorted|
      ensures 1 <= sorted[i].lineno <= lineCount
    {
      assert sorted[i] in sorted;
      var p :| 0 <= p < |defs| && defs[p] == sorted[i];
    }
  }

  /** One insertion of the loop, on the description: inserting the docstring
      line after line `lineno` of the partly expanded file extends the
      expansion by that name. */
  lemma InsertStep(original: seq<string>, done: map<nat, string>, docLine: (string, string) -> string, b: nat, lineno: nat, name: string)
    requires 1 <= lineno <= b <= |original|
    requires forall k | k in done :: k > b
    ensures var lines := original[..b] + Expand(original, done, docLine, b);
      lines[..lineno] + [docLine(original[lineno - 1], name)] + lines[lineno..]
        == original[..lineno - 1] + Expand(original, done[lineno := name], docLine, lineno - 1)
  {
    var done' := done[lineno := name];
    ExpandSkip(original, done', docLine, lineno, b);
    ExpandAgree(original, done', done, docLine, b);
    assert Expand(original, done', docLine, lineno - 1)
        == [original[lineno - 1]] + [docLine(original[lineno - 1], name)] + Expand(original, done', docLine, lineno);
    Splice(original, Expand(original, done, docLine, b), b, lineno, docLine(original[lineno - 1], name));
  }

  /** Inserting `x` after the first `lineno` lines of a file whose first `b`
      lines are those of `original`. */
  lemma Splice(original: seq<string>, e: seq<string>, b: nat, lineno: nat, x: string)
    requires 1 <= lineno <= b <= |original|
    ensures var lines := original[..b] + e;
      lines[..lineno] + [x] + lines[lineno..]
        == original[..lineno - 1] + ([original[lineno - 1]] + [x] + (original[lineno..b] + e))
  {
    var lines := original[..b] + e;
    assert lines[..lineno] == original[..lineno - 1] + [original[lineno - 1]];
    assert lines[lineno..] == original[lineno..b] + e;
  }

  /** A definition the loop passes over: the description moves up to its
      line. */
  lemma SkipStep(original: seq<string>, done: map<nat, string>, docLine: (string, string) -> string, b: nat, lineno: nat)
    requires 1 <= lineno <= b <= |original|
    requires forall k | k in done :: k > b
    ensures original[..b] + Expand(original, done, docLine, b)
         == original[..lineno - 1] + Expand(original, done, docLine, lineno - 1)
  {
    ExpandSkip(original, done, docLine, lineno - 1, b);
    assert original[..b] == original[..lineno - 1] + original[lineno - 1..b];
  }

  /** The names depend only on which definitions there are, not on their
      order. */
  lemma DocNamesSameDefs(a: seq<FunctionDef>, b: seq<FunctionDef>)
    requires DistinctLines(a) && DistinctLines(b)
    requires forall f :: f in a <==> f in b
    ensures DocNames(a) == DocNames(b)
  {
    forall k | k in DocNames(a)
      ensures k in DocNames(b) && DocNames(b)[k] == DocNames(a)[k]
    {
      DocNamesFrom(a, k);
      var f :| f in a && Qualifies(f) && f.lineno == k && DocNames(a)[k] == f.name;
      DocNamesAt(b, f);
    }
    forall k | k in DocNames(b)
      ensures k in DocNames(a)
    {
      DocNamesFrom(b, k);
      var f :| f in b && Qualifies(f) && f.lineno == k && DocNames(b)[k] == f.name;
      DocNamesAt(a, f);
    }
  }

  /** A line on which no definition starts has no key. */
  lemma {:induction false} DocNamesOnlyLines(defs: seq<FunctionDef>, k: nat)
    requires forall g | g in defs :: g.lineno != k
    ensures k !in DocNames(defs)
  {
    if defs != [] {
      assert forall g | g in defs[..|defs| - 1] :: g in defs;
      DocNamesOnlyLines(defs[..|defs| - 1], k);
    }
  }

  /** Every key comes from a qualifying definition on that line, with its
      name. */
  lemma {:induction false} DocNamesFrom(defs: seq<FunctionDef>, k: nat)
    requires k in DocNames(defs)
    ensures exists f | f in defs :: Qualifies(f) && f.lineno == k && DocNames(defs)[k] == f.name
  {
    var last := defs[|defs| - 1];
    var init := defs[..|defs| - 1];
    assert last in defs;
    if !(Qualifies(last) && last.lineno == k) {
      DocNamesFrom(init, k);
      var f :| f in init && Qualifies(f) && f.lineno == k && DocNames(init)[k] == f.name;
      assert f in defs;
    }
  }

  /** The file after the loop of `add_function_docstrings` has processed
      the first `i` of `functions`, following the code step by step: a
      public definition without a docstring, starting on a line the current
      file has, gets `docLine` of its line inserted right after that line. */
  function Inserting(original: seq<string>, functions: seq<FunctionDef>, docLine: (string, string) -> string,
                     i: nat): seq<string>
    requires i <= |functions|
  {
    if i == 0 then original
    else
      var lines := Inserting(original, functions, docLine, i - 1);
      var f := functions[i - 1];
      if Qualifies(f) && 1 <= f.lineno <= |lines|
      then lines[..f.lineno] + [docLine(lines[f.lineno - 1], f.name)] + lines[f.lineno..]
      else lines
  }

  /** How far up the file the loop has got after `i` definitions. */
  function Reached(original: seq<string>, functions: seq<FunctionDef>, i: nat): nat
    requires i <= |functions|
    requires forall j | 0 <= j < |functions| :: functions[j].lineno >= 1
  {
    if i == 0 then |original| else functions[i - 1].lineno - 1
  }

  /** The state of the insertion loop after the first `i` sorted
      definitions: the file is unchanged above line `b` and expanded with
      the names met so far from there on, and every definition still to
      come starts at or above line `b`. */
  ghost predicate LoopState(original: seq<string>, functions: seq<FunctionDef>, docLine: (string, string) -> string,
                            i: nat, done: map<nat, string>, b: nat, lines: seq<string>)
  {
    && i <= |functions| && b <= |original|
    && (forall j | i <= j < |functions| :: 1 <= functions[j].lineno <= b)
    && (forall k | k in done :: k > b)
    && lines == original[..b] + Expand(original, done, docLine, b)
    && done == DocNames(functions[..i])
  }

  /** The loop's step for a definition that gets a docstring. */
  lemma InsertKeepsLoopState(original: seq<string>, functions: seq<FunctionDef>, docLine: (string, string) -> string, i: nat,
                             done: map<nat, string>, b: nat, lines: seq<string>)
    requires StrictlyDescending(functions)
    requires LoopState(original, functions, docLine, i, done, b, lines)
    requires i < |functions| && Qualifies(functions[i])
    ensures var f := functions[i];
      && 1 <= f.lineno <= b <= |lines|
      && lines[f.lineno - 1] == original[f.lineno - 1]
      && LoopState(original, functions, docLine, i + 1, done[f.lineno := f.name], f.lineno - 1,
                   lines[..f.lineno] + [docLine(lines[f.lineno - 1], f.name)] + lines[f.lineno..])
  {
    var f := functions[i];
    assert functions[..i + 1] == functions[..i] + [f];
    DocNamesSnoc(functions[..i], f);
    InsertStep(original, done, docLine, b, f.lineno, f.name);
  }

  /** The loop's step for a definition that is passed over. */
  lemma SkipKeepsLoopState(original: seq<string>, functions: seq<FunctionDef>, docLine: (string, string) -> string, i: nat,
                           done: map<nat, string>, b: nat, lines: seq<string>)
    requires StrictlyDescending(functions)
    requires LoopState(original, functions, docLine, i, done, b, lines)
    requires i < |functions| && !Qualifies(functions[i])
    ensures LoopState(original, functions, docLine, i + 1, done, functions[i].lineno - 1, lines)
  {
    var f := functions[i];
    assert functions[..i + 1] == functions[..i] + [f];
    DocNamesSnoc(functions[..i], f);
    SkipStep(original, done, docLine, b, f.lineno);
  }

  /** Step by step, the loop keeps its state. */
  lemma {:induction false} InsertingState(original: seq<string>, functions: seq<FunctionDef>,
                                          docLine: (string, string) -> string, i: nat)
    requires StrictlyDescending(functions)
    requires forall j | 0 <= j < |functions| :: 1 <= functions[j].lineno <= |original|
    requires i <= |functions|
    ensures LoopState(original, functions, docLine, i, DocNames(functions[..i]),
                      Reached(original, functions, i), Inserting(original, functions, docLine, i))
  {
    if i == 0 {
      assert functions[..0] == [];
    } else {
      InsertingState(original, functions, docLine, i - 1);
      var done := DocNames(functions[..i - 1]);
      var b := Reached(original, functions, i - 1);
      var lines := Inserting(original, functions, docLine, i - 1);
      if Qualifies(functions[i - 1]) {
        InsertKeepsLoopState(original, functions, docLine, i - 1, done, b, lines);
      } else {
        SkipKeepsLoopState(original, functions, docLine, i - 1, done, b, lines);
      }
    }
  }

  /** Once every definition is processed, the file is the full expansion. */
  lemma InsertingExpands(original: seq<string>, defs: seq<FunctionDef>, functions: seq<FunctionDef>,
                         docLine: (string, string) -> string)
    requires WellPlaced(defs, |original|)
    requires StrictlyDescending(functions)
    requires forall j | 0 <= j < |functions| :: 1 <= functions[j].lineno <= |original|
    requires forall f :: f in functions <==> f in defs
    ensures Inserting(original, functions, docLine, |functions|) == Expand(original, DocNames(defs), docLine, 0)
  {
    InsertingState(original, functions, docLine, |functions|);
    var b := Reached(original, functions, |functions|);
    ExpandSkip(original, DocNames(functions[..|functions|]), docLine, 0, b);
    assert functions[..|functions|] == functions;
    DocNamesSameDefs(functions, defs);
  }

  /** The file grows exactly when some definition gets a docstring. */
  lemma ExpandGrows(original: seq<string>, defs: seq<FunctionDef>, docLine: (string, string) -> string)
    requires WellPlaced(defs, |original|)
    ensures |Expand(original, DocNames(defs), docLine, 0)| > |original| <==> DocNames(defs) != map[]
  {
    var names := DocNames(defs);
    ExpandLength(original, names, docLine, 0);
    if names != map[] {
      var k :| k in names;
      DocNamesFrom(defs, k);
      var f :| f in defs && Qualifies(f) && f.lineno == k && names[k] == f.name;
      var p :| 0 <= p < |defs| && defs[p] == f;
      assert k in KeysAfter(names, 0, |original|);
    }
  }

  /** The loop of `add_function_docstrings` over the sorted definitions,
      with the docstring line built by `docLine` from the definition line
      and the function's name. */
  method InsertBottomUp(original: seq<string>, functions: seq<FunctionDef>, docLine: (string, string) -> string)
    returns (modified: bool, lines: seq<string>)
    requires forall j | 0 <= j < |functions| :: functions[j].lineno >= 1
    ensures lines == Inserting(original, functions, docLine, |functions|)
    ensures modified <==> |original| < |lines|
  {
    lines := original;
    modified := false;
    var i := 0;
    while i < |functions|
      invariant i <= |functions|
      invariant lines == Inserting(original, functions, docLine, i)
      invariant |original| <= |lines| && (modified <==> |original| < |lines|)
    {
      var node := functions[i];
      if !node.hasDocstring && !StartsWith(node.name, "_") && node.lineno <= |lines| {
        var funcLine := node.lineno - 1;
        var docstringLine := docLine(lines[funcLine], node.name);
        lines := lines[..funcLine + 1] + [docstringLine] + lines[funcLine + 1..];
        modified := true;
      }
      i := i + 1;
    }
  }

  /** The insertion part of `add_function_docstrings`: bottom-up over the
      sorted definitions, each public definition without a docstring gets
      its docstring line after its `def` line. */
  method InsertFunctionDocstrings(original: seq<string>, defs: seq<FunctionDef>)
    returns (modified: bool, result: seq<string>)
    requires WellPlaced(defs, |original|)
    ensures modified <==> DocNames(defs) != map[]
    ensures result == Expand(original, DocNames(defs), FunctionDocstring, 0)
  {
    var functions := SortByLinenoDescending(defs);
    SortedWellPlaced(defs, |original|);
    modified, result := InsertBottomUp(original, functions, FunctionDocstring);
    InsertingExpands(original, defs, functions, FunctionDocstring);
    ExpandGrows(original, defs, FunctionDocstring);
  }

  /** A definition has its name keyed by its line exactly when it
      qualifies. */
  lemma {:induction false} DocNamesAt(defs: seq<FunctionDef>, f: FunctionDef)
    requires DistinctLines(defs) && f in defs
    ensures f.lineno in DocNames(defs) <==> Qualifies(f)
    ensures Qualifies(f) ==> DocNames(defs)[f.lineno] == f.name
  {
    var last := defs[|defs| - 1];
    var init := defs[..|defs| - 1];
    if f == last {
      forall g | g in init
        ensures g.lineno != f.lineno
      {
        var q :| 0 <= q < |init| && init[q] == g;
        assert defs[q] == g;
      }
      DocNamesOnlyLines(init, f.lineno);
    } else {
      var p :| 0 <= p < |defs| && defs[p] == f;
      assert p < |defs| - 1 && init[p] == f;
      assert last.lineno != f.lineno;
      assert DistinctLines(init);
      DocNamesAt(init, f);
    }
  }

  /** There is something to insert exactly when some definition qualifies. */
  lemma DocNamesEmpty(defs: seq<FunctionDef>)
    requires DistinctLines(defs)
    ensures DocNames(defs) != map[] <==> exists f | f in defs :: Qualifies(f)
  {
    if DocNames(defs) != map[] {
      var k :| k in DocNames(defs);
    } else {
      forall f | f in defs
        ensures !Qualifies(f)
      {
        DocNamesAt(defs, f);
      }
    }
  }

  /** In the written file, the `def` line of every public function without
      a docstring is followed by its docstring line; every other `def` line
      gets nothing. */
  lemma DocstringFollowsDef(original: seq<string>, defs: seq<FunctionDef>, docLine: (string, string) -> string,
                            f: FunctionDef)
    requires WellPlaced(defs, |original|) && f in defs
    ensures var names := DocNames(defs);
      var r := Expand(original, names, docLine, 0);
      var p := f.lineno - 1 + |KeysAfter(names, 0, f.lineno - 1)|;
      && p < |r| && r[p] == original[f.lineno - 1]
      && (Qualifies(f) ==> p + 1 < |r| && r[p + 1] == docLine(original[f.lineno - 1], f.name))
      && (!Qualifies(f) ==> f.lineno !in names)
  {
    var idx :| 0 <= idx < |defs| && defs[idx] == f;
    DocNamesAt(defs, f);
    ExpandPlacesLine(original, DocNames(defs), docLine, 0, f.lineno - 1);
  }

  /** `add_function_docstrings`: `None` for a file that does not parse;
      otherwise whether a docstring was added, and the content written back
      (`None` when the file is left alone). */
  method AddFunctionDocstrings(content: string, parsed: Option<seq<FunctionDef>>)
    returns (modified: bool, written: Option<string>)
    requires parsed.Some? ==> WellPlaced(parsed.value, |Split(content, '\n')|)
    ensures parsed.None? ==> !modified && written == None
    ensures parsed.Some? ==>
      && (modified <==> exists f | f in parsed.value :: Qualifies(f))
      && written == if modified
                    then Some(Join(Expand(Split(content, '\n'), DocNames(parsed.value), FunctionDocstring, 0), "\n"))
                    else None
  {
    if parsed.None? {
      return false, None;
    }
    var lines := Split(content, '\n');
    var result;
    modified, result := InsertFunctionDocstrings(lines, parsed.value);
    DocNamesEmpty(parsed.value);
    written := if modified then Some(Join(result, "\n")) else None;
  }
}
