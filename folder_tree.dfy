/** The GitHub folder tools: `get_github_folder_contents` builds a folder map
    (name to "file", to a nested folder map, or to `None` for a folder whose
    listing could not be fetched) from the contents API, and
    `print_folder_tree` draws that map with tree connectors. The contents API
    is an abstract input: a function from a path to the items found there,
    and a `Listing` describes the repository below a path as that function
    serves it. */
module FolderTree {
  import opened Wrappers
  import opened Text

  /** A value of the folder map: "file", a nested map, or `None`. */
  datatype Content = File | Dir(entries: seq<Entry>) | Missing

  /** One key of a folder map with its value; a map is a `seq<Entry>` in
      insertion order. */
  datatype Entry = Entry(name: string, content: Content)

  function Names(entries: seq<Entry>): seq<string> {
    seq(|entries|, i requires 0 <= i < |entries| => entries[i].name)
  }

  predicate DistinctNames(entries: seq<Entry>) {
    forall i, j | 0 <= i < j < |entries| :: entries[i].name != entries[j].name
  }

  /** `folder_tree.get(name)`. */
  function Lookup(entries: seq<Entry>, name: string): Option<Content> {
    if entries == [] then None
    else if entries[0].name == name then Some(entries[0].content)
    else Lookup(entries[1..], name)
  }

  /** `folder_tree[name] = content`: a present key keeps its position. */
  function Put(entries: seq<Entry>, name: string, content: Content): (r: seq<Entry>)
    ensures |entries| <= |r| <= |entries| + 1
  {
    if entries == [] then [Entry(name, content)]
    else if entries[0].name == name then [Entry(name, content)] + entries[1..]
    else [entries[0]] + Put(entries[1..], name, content)
  }

  lemma {:induction false} LookupMeansName(entries: seq<Entry>, name: string)
    ensures Lookup(entries, name).Some? <==> name in Names(entries)
  {
    if entries != [] {
      LookupMeansName(entries[1..], name);
      assert Names(entries) == [entries[0].name] + Names(entries[1..]);
    }
  }

  /** After `Put` the key holds the new value and other keys are unchanged. */
  lemma {:induction false} PutLookup(entries: seq<Entry>, name: string, content: Content, m: string)
    ensures Lookup(Put(entries, name, content), m) == if m == name then Some(content) else Lookup(entries, m)
  {
    if entries != [] && entries[0].name != name {
      PutLookup(entries[1..], name, content, m);
    }
  }

  /** A present key keeps its position; a new key is appended. */
  lemma {:induction false} PutNames(entries: seq<Entry>, name: string, content: Content)
    ensures Names(Put(entries, name, content)) ==
      if name in Names(entries) then Names(entries) else Names(entries) + [name]
  {
    if entries != [] {
      var rest := entries[1..];
      assert Names(entries) == [entries[0].name] + Names(rest);
      if entries[0].name == name {
        assert Names(Put(entries, name, content)) == [name] + Names(rest);
      } else {
        PutNames(rest, name, content);
        assert Names(Put(entries, name, content)) == [entries[0].name] + Names(Put(rest, name, content));
      }
    }
  }

  /** `Put` keeps the keys distinct. */
  lemma PutDistinct(entries: seq<Entry>, name: string, content: Content)
    requires DistinctNames(entries)
    ensures DistinctNames(Put(entries, name, content))
  {
    PutNames(entries, name, content);
    var p := Put(entries, name, content);
    var ns := Names(entries);
    assert forall i | 0 <= i < |p| :: p[i].name == Names(p)[i];
    forall i, j | 0 <= i < j < |p|
      ensures p[i].name != p[j].name
    {
      if name !in ns && j == |ns| {
        assert p[i].name == ns[i];
      }
    }
  }

  // ------------------------------------------------------ fetching

  /** The repository below one directory: its items, or `Unavailable` when
      the request for the directory raises. */
  datatype Listing = Unavailable | Listed(items: seq<Item>)

  /** One item of a listing: its "name", its "type", and, for a directory,
      the repository below it. */
  datatype Item = Item(name: string, itemType: string, listing: Listing)

  function AsContent(r: Option<seq<Entry>>): Content {
    if r.None? then Missing else Dir(r.value)
  }

  /** The folder map `get_github_folder_contents` returns for a listing:
      `None` when the listing failed. */
  function FolderContents(listing: Listing): (r: Option<seq<Entry>>)
    ensures r.None? <==> listing.Unavailable?
    ensures r.Some? ==> |r.value| <= |listing.items|
    decreases listing, 1
  {
    match listing
    case Unavailable => None
    case Listed(items) => Some(Collected(items, |items|))
  }

  /** The value an item of type "dir" or "file" stores under its name. */
  function ItemContent(items: seq<Item>, i: nat): Content
    requires i < |items|
    decreases items, 0, i
  {
    if items[i].itemType == "dir" then AsContent(FolderContents(items[i].listing)) else File
  }

  predicate Kept(item: Item) {
    item.itemType == "dir" || item.itemType == "file"
  }

  /** The folder map after the loop has seen `items[..n]`. */
  function Collected(items: seq<Item>, n: nat): (r: seq<Entry>)
    requires n <= |items|
    ensures |r| <= n
    ensures (forall k | 0 <= k < n :: !Kept(items[k])) ==> r == []
    decreases items, 0, n
  {
    if n == 0 then []
    else
      var entries := Collected(items, n - 1);
      if Kept(items[n - 1]) then Put(entries, items[n - 1].name, ItemContent(items, n - 1))
      else entries
  }

  /** The position of the last item among `items[..n]` that is kept under
      `name`. */
  function LastKept(items: seq<Item>, n: nat, name: string): (r: Option<nat>)
    requires n <= |items|
    ensures r.Some? ==> r.value < n && Kept(items[r.value]) && items[r.value].name == name
  {
    if n == 0 then None
    else if Kept(items[n - 1]) && items[n - 1].name == name then Some(n - 1)
    else LastKept(items, n - 1, name)
  }

  /** The folder map has distinct keys; a key is present iff an item of type
      "dir" or "file" has that name, and it holds what the last such item
      stores: "file" for a file, the recursive result for a directory. */
  lemma {:induction false} CollectedEntries(items: seq<Item>, n: nat)
    requires n <= |items|
    ensures DistinctNames(Collected(items, n))
    ensures forall name ::
              Lookup(Collected(items, n), name) ==
              if LastKept(items, n, name).None? then None else Some(ItemContent(items, LastKept(items, n, name).value))
  {
    if n > 0 {
      CollectedEntries(items, n - 1);
      if Kept(items[n - 1]) {
        var entries := Collected(items, n - 1);
        PutDistinct(entries, items[n - 1].name, ItemContent(items, n - 1));
        forall name
          ensures Lookup(Collected(items, n), name) ==
            (if LastKept(items, n, name).None? then None else Some(ItemContent(items, LastKept(items, n, name).value)))
        {
          PutLookup(entries, items[n - 1].name, ItemContent(items, n - 1), name);
        }
      }
    }
  }

  /** One item as the contents API reports it: its "name" and "type". */
  datatype RawItem = RawItem(name: string, itemType: string)

  /** What the API answers for the directory a listing describes: `None`
      when the request raises, otherwise the names and types of its items. */
  function Shallow(listing: Listing): (r: Option<seq<RawItem>>)
    ensures listing.Unavailable? <==> r.None?
    ensures r.Some? ==> |r.value| == |listing.items| && forall i | 0 <= i < |r.value| ::
      r.value[i].name == listing.items[i].name && r.value[i].itemType == listing.items[i].itemType
  {
    match listing
    case Unavailable => None
    case Listed(items) => Some(seq(|items|, i requires 0 <= i < |items| => RawItem(items[i].name, items[i].itemType)))
  }

  /** `api` serves the repository that `listing` describes from `path` down:
      the API answers `path` as the listing says, and answers the path of
      every sub-folder, built from `path` and the folder's name, as that
      folder's own listing says. */
  ghost predicate Serves(api: string -> Option<seq<RawItem>>, path: string, listing: Listing)
    decreases listing
  {
    && api(path) == Shallow(listing)
    && (listing.Listed? ==>
          forall i | 0 <= i < |listing.items| && listing.items[i].itemType == "dir" ::
            Serves(api, ChildPath(path, listing.items[i].name), listing.items[i].listing))
  }

  /** `get_github_folder_contents(owner, repo, path)`, with `api(p)` standing
      for the GET of the contents URL of `p` and its `.json()`; `listing` is
      the repository below `path` as `api` serves it. A failed request gives
      `None`; otherwise the folder map of the listing, whose sub-folders are
      what the API serves at their own paths. */
  method GetGithubFolderContents(api: string -> Option<seq<RawItem>>, path: string, ghost listing: Listing)
    returns (r: Option<seq<Entry>>)
    requires Serves(api, path, listing)
    ensures r == FolderContents(listing)
    ensures api(path).None? <==> r.None?
    ensures r.Some? ==> DistinctNames(r.value)
    decreases listing
  {
    var contents := api(path);
    if contents.None? {
      return None;
    }
    var items := contents.value;
    ghost var described := listing.items;
    var folderTree: seq<Entry> := [];
    var i := 0;
    while i < |items|
      invariant i <= |items| == |described|
      invariant folderTree == Collected(described, i)
    {
      var name := items[i].name;
      var itemType := items[i].itemType;
      if itemType == "dir" {
        var sub := GetGithubFolderContents(api, ChildPath(path, name), described[i].listing);
        folderTree := Put(folderTree, name, AsContent(sub));
      } else if itemType == "file" {
        folderTree := Put(folderTree, name, File);
      }
      i := i + 1;
    }
    CollectedEntries(described, |items|);
    r := Some(folderTree);
  }

  /** Under a served listing, the key `name` of the folder map holds, when
      the last item of that name is a folder, that folder's map: what the
      API serves at `ChildPath(path, name)`. */
  lemma SubfolderFromChildPath(api: string -> Option<seq<RawItem>>, path: string, listing: Listing, name: string, k: nat)
    requires Serves(api, path, listing) && listing.Listed?
    requires LastKept(listing.items, |listing.items|, name) == Some(k) && listing.items[k].itemType == "dir"
    ensures api(ChildPath(path, name)) == Shallow(listing.items[k].listing)
    ensures Lookup(FolderContents(listing).value, name) == Some(AsContent(FolderContents(listing.items[k].listing)))
  {
    CollectedEntries(listing.items, |listing.items|);
  }

  // ------------------------------------------------------ paths

  /** The path of a sub-folder: `name` under the root, `path/name` below it. */
  function ChildPath(path: string, name: string): (r: string)
    ensures |name| <= |r| && r[|r| - |name|..] == name
    ensures path == "" ==> r == name
    ensures path != "" ==> |r| == |path| + 1 + |name| && r[..|path| + 1] == path + "/"
  {
    if path == "" then name else path + "/" + name
  }

  /** The path reached by descending from the root through `names`. */
  function DescendPath(names: seq<string>): string {
    if names == [] then "" else ChildPath(DescendPath(names[..|names| - 1]), names[|names| - 1])
  }

  lemma {:induction false} JoinSnoc(parts: seq<string>, x: string, sep: string)
    requires parts != []
    ensures Join(parts + [x], sep) == Join(parts, sep) + sep + x
  {
    if |parts| > 1 {
      assert (parts + [x])[1..] == parts[1..] + [x];
      JoinSnoc(parts[1..], x, sep);
    }
  }

  /** Descending through non-empty names gives the names joined by "/". */
  lemma {:induction false} DescendPathJoins(names: seq<string>)
    requires forall i | 0 <= i < |names| :: names[i] != ""
    ensures DescendPath(names) == Join(names, "/")
    ensures names != [] ==> DescendPath(names) != ""
  {
    if names != [] {
      var init := names[..|names| - 1];
      DescendPathJoins(init);
      if init != [] {
        assert DescendPath(names) == DescendPath(init) + "/" + names[|names| - 1];
        JoinSnoc(init, names[|names| - 1], "/");
        assert init + [names[|names| - 1]] == names;
      }
    }
  }

  // ------------------------------------------------------ file contents

  const BaseUrl: string := "https://api.github.com/repos"

  function ContentsUrl(owner: string, repo: string, path: string): string {
    BaseUrl + "/" + owner + "/" + repo + "/contents/" + path
  }

  /** The dictionary `get_github_file_contents` returns. */
  datatype FileResponse = FileFailure(error: string) | FileSuccess(fileContents: string)

  /** `get_github_file_contents`: a path not ending in ".md" is refused
      before any request; otherwise `download` gives the decoded content of
      the URL, or `None` when the request or the decoding raises. */
  function GetGithubFileContents(owner: string, repo: string, path: string,
                                 download: string -> Option<string>): (r: Option<FileResponse>)
    ensures !EndsWith(path, ".md") ==> r == Some(FileFailure("File is not a markdown file."))
  {
    if !EndsWith(path, ".md") then Some(FileFailure("File is not a markdown file."))
    else
      var content := download(ContentsUrl(owner, repo, path));
      if content.None? then None else Some(FileSuccess(content.value))
  }

  /** A non-markdown path is refused whatever the API would answer; a
      markdown path succeeds exactly when its download does. */
  lemma FileGuardIgnoresDownload(owner: string, repo: string, path: string,
                                 d1: string -> Option<string>, d2: string -> Option<string>)
    ensures !EndsWith(path, ".md") ==>
      GetGithubFileContents(owner, repo, path, d1) == GetGithubFileContents(owner, repo, path, d2)
    ensures EndsWith(path, ".md") ==>
      (GetGithubFileContents(owner, repo, path, d1).Some? <==> d1(ContentsUrl(owner, repo, path)).Some?)
  {
  }

  // ------------------------------------------------------ printing

  const LastConnector: string := "└── "
  const MiddleConnector: string := "├── "
  const LastIndent: string := "    "
  const MiddleIndent: string := "│   "

  function Connector(isLast: bool): string {
    if isLast then LastConnector else MiddleConnector
  }

  function ChildIndent(isLast: bool): string {
    if isLast then LastIndent else MiddleIndent
  }

  /** The printed lines, and whether printing raised: a `None` value is not a
      map, so its `items()` raises right after its own line is printed. */
  datatype Printed = Printed(lines: seq<string>, crashed: bool)

  /** `print_folder_tree(tree, indent, prefix, is_last_item)`. */
  function PrintFolderTree(tree: seq<Entry>, indent: int, prefix: string, isLastItem: bool): (r: Printed)
    ensures r.crashed <==> HasMissing(tree)
    ensures tree == [] ==> r == Printed([], false)
    ensures tree != [] ==> r.lines != [] && r.lines[0] == prefix + Connector(|tree| == 1) + tree[0].name
    decreases tree, 1, 0
  {
    PrintItems(tree, 0, indent, prefix)
  }

  /** The loop of `print_folder_tree` from the `i`-th item on. */
  function PrintItems(items: seq<Entry>, i: nat, indent: int, prefix: string): (r: Printed)
    requires i <= |items|
    ensures r.crashed <==> HasMissingFrom(items, i)
    ensures i < |items| ==> r.lines != [] && r.lines[0] == prefix + Connector(i == |items| - 1) + items[i].name
    decreases items, 0, |items| - i
  {
    if i == |items| then Printed([], false)
    else
      var isLastItem := i == |items| - 1;
      var line := prefix + Connector(isLastItem) + items[i].name;
      match items[i].content
      case File =>
        var rest := PrintItems(items, i + 1, indent, prefix);
        Printed([line] + rest.lines, rest.crashed)
      case Missing => Printed([line], true)
      case Dir(children) =>
        var sub := PrintFolderTree(children, indent + 1, prefix + ChildIndent(isLastItem), isLastItem);
        if sub.crashed then Printed([line] + sub.lines, true)
        else
          var rest := PrintItems(items, i + 1, indent, prefix);
          Printed([line] + sub.lines + rest.lines, rest.crashed)
  }

  /** Whether a `None` value occurs anywhere in the tree. */
  predicate HasMissing(tree: seq<Entry>)
    decreases tree, 1, 0
  {
    HasMissingFrom(tree, 0)
  }

  predicate HasMissingFrom(items: seq<Entry>, i: nat)
    requires i <= |items|
    decreases items, 0, |items| - i
  {
    && i < |items|
    && (|| items[i].content.Missing?
        || (items[i].content.Dir? && HasMissing(items[i].content.entries))
        || HasMissingFrom(items, i + 1))
  }

  // ---------------------------------------- the picture, independently

  /** One drawn entry: its name, whether it is the last entry of its own
      level, and, for each of its ancestors from the top level down, whether
      that ancestor was the last entry of its level. */
  datatype Row = Row(name: string, ancestorsLast: seq<bool>, isLast: bool)

  /** Every entry of the tree, in pre-order, each directory before its
      children; a `None` value is an entry without children. */
  function Rows(tree: seq<Entry>): seq<Row>
    decreases tree, 1, 0
  {
    RowsFrom(tree, 0)
  }

  function RowsFrom(items: seq<Entry>, i: nat): seq<Row>
    requires i <= |items|
    decreases items, 0, |items| - i
  {
    if i == |items| then []
    else
      var isLast := i == |items| - 1;
      var below := if items[i].content.Dir? then Under(isLast, Rows(items[i].content.entries)) else [];
      [Row(items[i].name, [], isLast)] + below + RowsFrom(items, i + 1)
  }

  /** The number of entries in the tree, at every level. */
  function Size(tree: seq<Entry>): nat
    decreases tree, 1, 0
  {
    SizeFrom(tree, 0)
  }

  function SizeFrom(items: seq<Entry>, i: nat): nat
    requires i <= |items|
    decreases items, 0, |items| - i
  {
    if i == |items| then 0
    else 1 + (if items[i].content.Dir? then Size(items[i].content.entries) else 0) + SizeFrom(items, i + 1)
  }

  /** One row per entry: the outline has exactly one line per file or
      folder. */
  lemma {:induction false} RowsCount(tree: seq<Entry>)
    ensures |Rows(tree)| == Size(tree)
    decreases tree, 1, 0
  {
    RowsFromCount(tree, 0);
  }

  lemma {:induction false} RowsFromCount(items: seq<Entry>, i: nat)
    requires i <= |items|
    ensures |RowsFrom(items, i)| == SizeFrom(items, i)
    decreases items, 0, |items| - i
  {
    if i < |items| {
      if items[i].content.Dir? {
        RowsCount(items[i].content.entries);
      }
      RowsFromCount(items, i + 1);
    }
  }

  /** The rows of a directory's children, seen from the directory's level. */
  function Under(parentLast: bool, rows: seq<Row>): seq<Row> {
    seq(|rows|, k requires 0 <= k < |rows| => rows[k].(ancestorsLast := [parentLast] + rows[k].ancestorsLast))
  }

  /** The indentation an entry inherits: four spaces under an ancestor that
      was last of its level, a vertical bar under any other. */
  function Indentation(ancestorsLast: seq<bool>): string {
    if ancestorsLast == [] then "" else ChildIndent(ancestorsLast[0]) + Indentation(ancestorsLast[1..])
  }

  /** The line of one entry: the prefix, the inherited indentation, "└── "
      for the last entry of its level and "├── " otherwise, then the name. */
  function RowLine(prefix: string, row: Row): string {
    prefix + Indentation(row.ancestorsLast) + Connector(row.isLast) + row.name
  }

  function Outline(prefix: string, rows: seq<Row>): (lines: seq<string>)
    ensures |lines| == |rows|
  {
    seq(|rows|, k requires 0 <= k < |rows| => RowLine(prefix, rows[k]))
  }

  lemma OutlineAppend(prefix: string, a: seq<Row>, b: seq<Row>)
    ensures Outline(prefix, a + b) == Outline(prefix, a) + Outline(prefix, b)
  {
    assert forall k | 0 <= k < |a + b| :: Outline(prefix, a + b)[k] == (Outline(prefix, a) + Outline(prefix, b))[k];
  }

  lemma RowLineUnder(prefix: string, parentLast: bool, row: Row)
    ensures RowLine(prefix, row.(ancestorsLast := [parentLast] + row.ancestorsLast))
         == RowLine(prefix + ChildIndent(parentLast), row)
  {
    assert ([parentLast] + row.ancestorsLast)[1..] == row.ancestorsLast;
  }

  /** Drawing the children's rows from the parent's level is drawing them
      with the parent's child indentation added to the prefix. */
  lemma OutlineUnder(prefix: string, parentLast: bool, rows: seq<Row>)
    ensures Outline(prefix, Under(parentLast, rows)) == Outline(prefix + ChildIndent(parentLast), rows)
  {
    forall k | 0 <= k < |rows|
      ensures Outline(prefix, Under(parentLast, rows))[k] == Outline(prefix + ChildIndent(parentLast), rows)[k]
    {
      RowLineUnder(prefix, parentLast, rows[k]);
    }
  }

  /** `print_folder_tree` prints exactly the outline of the tree when the
      tree holds no `None`; otherwise it raises, having printed a non-empty
      beginning of the outline. An empty tree prints nothing. */
  lemma {:induction false} PrintDrawsOutline(tree: seq<Entry>, indent: int, prefix: string, isLastItem: bool)
    ensures var p := PrintFolderTree(tree, indent, prefix, isLastItem);
      && (p.crashed <==> HasMissing(tree))
      && (!p.crashed ==> p.lines == Outline(prefix, Rows(tree)))
      && (p.crashed ==> p.lines != [] && p.lines <= Outline(prefix, Rows(tree)))
      && (tree == [] ==> p == Printed([], false))
    decreases tree, 1, 0
  {
    PrintItemsDrawOutline(tree, 0, indent, prefix);
  }

  lemma {:induction false} PrintItemsDrawOutline(items: seq<Entry>, i: nat, indent: int, prefix: string)
    requires i <= |items|
    ensures var p := PrintItems(items, i, indent, prefix);
      && (p.crashed <==> HasMissingFrom(items, i))
      && (!p.crashed ==> p.lines == Outline(prefix, RowsFrom(items, i)))
      && (p.crashed ==> p.lines != [] && p.lines <= Outline(prefix, RowsFrom(items, i)))
    decreases items, 0, |items| - i
  {
    if i < |items| {
      var isLast := i == |items| - 1;
      var row := Row(items[i].name, [], isLast);
      var line := prefix + Connector(isLast) + items[i].name;
      assert RowLine(prefix, row) == line;
      assert Outline(prefix, [row]) == [line];
      var p := PrintItems(items, i, indent, prefix);
      match items[i].content
      case File =>
        PrintItemsDrawOutline(items, i + 1, indent, prefix);
        assert p.lines == [line] + PrintItems(items, i + 1, indent, prefix).lines;
        OutlineAppend(prefix, [row], RowsFrom(items, i + 1));
        assert RowsFrom(items, i) == [row] + RowsFrom(items, i + 1);
      case Missing =>
        OutlineAppend(prefix, [row], RowsFrom(items, i + 1));
        assert RowsFrom(items, i) == [row] + RowsFrom(items, i + 1);
      case Dir(children) =>
        var childPrefix := prefix + ChildIndent(isLast);
        PrintDrawsOutline(children, indent + 1, childPrefix, isLast);
        var sub := PrintFolderTree(children, indent + 1, childPrefix, isLast);
        var below := Under(isLast, Rows(children));
        OutlineUnder(prefix, isLast, Rows(children));
        assert RowsFrom(items, i) == [row] + below + RowsFrom(items, i + 1);
        OutlineAppend(prefix, [row] + below, RowsFrom(items, i + 1));
        OutlineAppend(prefix, [row], below);
        if !sub.crashed {
          PrintItemsDrawOutline(items, i + 1, indent, prefix);
          assert p.lines == [line] + sub.lines + PrintItems(items, i + 1, indent, prefix).lines;
        } else {
          assert p.lines == [line] + sub.lines;
        }
    }
  }

  /** `indent` and `is_last_item` never change what is printed. */
  lemma {:induction false} PrintIgnoresIndentAndLast(tree: seq<Entry>, indent: int, indent': int, prefix: string,
                                                     isLastItem: bool, isLastItem': bool)
    ensures PrintFolderTree(tree, indent, prefix, isLastItem) == PrintFolderTree(tree, indent', prefix, isLastItem')
    decreases tree, 1, 0
  {
    PrintItemsIgnoreIndent(tree, 0, indent, indent', prefix);
  }

  lemma {:induction false} PrintItemsIgnoreIndent(items: seq<Entry>, i: nat, indent: int, indent': int, prefix: string)
    requires i <= |items|
    ensures PrintItems(items, i, indent, prefix) == PrintItems(items, i, indent', prefix)
    decreases items, 0, |items| - i
  {
    if i < |items| {
      var isLast := i == |items| - 1;
      if items[i].content.Dir? {
        PrintIgnoresIndentAndLast(items[i].content.entries, indent + 1, indent' + 1, prefix + ChildIndent(isLast), isLast, isLast);
      }
      PrintItemsIgnoreIndent(items, i + 1, indent, indent', prefix);
    }
  }
}
