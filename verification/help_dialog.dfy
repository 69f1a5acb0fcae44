/** The help dialog's topic tree: which help files become topics and in what
    order, the live filter over the tree, the search for the item of a file,
    and the choice of the topic opened first. Reading directories, loading
    and rendering the files are outside the model. */
module HelpDialog {
  import opened Wrappers
  import opened Text
  import opened Paths

  /** An entry of the topic tree: its label, the file it opens (directories
      have none), whether the filter hides it, and its children. */
  datatype Item = Item(text: string, path: Option<string>, hidden: bool, children: seq<Item>)

  // ---------------------------------------------------------------------
  // Topic files

  /** A help topic is a Markdown or HTML file, the suffix compared without
      case. */
  function IsTopicFile(name: string): (b: bool)
    ensures b ==> Suffix(name) != [] && |Suffix(name)| < |name|
  {
    Lower(Suffix(name)) in {".md", ".markdown", ".html", ".htm"}
  }

  /** Python's `<=` on strings: code point by code point. */
  predicate LexLe(a: string, b: string) {
    a == [] || (b != [] && (a[0] < b[0] || (a[0] == b[0] && LexLe(a[1..], b[1..]))))
  }

  lemma {:induction false} LexLeTotal(a: string, b: string)
    ensures LexLe(a, b) || LexLe(b, a)
  {
    if a != [] && b != [] && a[0] == b[0] {
      LexLeTotal(a[1..], b[1..]);
    }
  }

  /** Names in order of their lower-cased form, each pair of neighbours. */
  predicate SortedByLower(s: seq<string>) {
    forall i :: 0 <= i < |s| - 1 ==> LexLe(Lower(s[i]), Lower(s[i + 1]))
  }

  /** Insertion of one name into a sorted list, in front of the first name
      it does not come after. */
  function Insert(x: string, s: seq<string>): (r: seq<string>)
    requires SortedByLower(s)
    ensures SortedByLower(r) && multiset(r) == multiset(s) + multiset{x}
    ensures r != [] && (r[0] == x || (s != [] && r[0] == s[0]))
  {
    if s == [] then [x]
    else if LexLe(Lower(x), Lower(s[0])) then [x] + s
    else
      LexLeTotal(Lower(x), Lower(s[0]));
      var rest := Insert(x, s[1..]);
      assert s == [s[0]] + s[1..];
      [s[0]] + rest
  }

  /** `sorted(..., key=lambda x: x.name.lower())`. */
  function SortByLower(s: seq<string>): (r: seq<string>)
    ensures SortedByLower(r) && multiset(r) == multiset(s)
  {
    if s == [] then []
    else
      assert s == [s[0]] + s[1..];
      Insert(s[0], SortByLower(s[1..]))
  }

  /** The names among `names` that are topic files, in their given order. */
  function KeepTopics(names: seq<string>): (r: seq<string>)
    ensures forall x :: x in r <==> x in names && IsTopicFile(x)
    ensures forall x :: x in multiset(r) ==> multiset(r)[x] == multiset(names)[x]
  {
    if names == [] then []
    else
      assert names == [names[0]] + names[1..];
      (if IsTopicFile(names[0]) then [names[0]] else []) + KeepTopics(names[1..])
  }

  /** The files of one directory that become topics, in listing order. */
  function TopicFiles(names: seq<string>): (r: seq<string>)
    ensures SortedByLower(r)
    ensures forall x :: x in r <==> x in names && IsTopicFile(x)
    ensures forall x :: IsTopicFile(x) ==> multiset(r)[x] == multiset(names)[x]
  {
    var kept := KeepTopics(names);
    var r := SortByLower(kept);
    assert forall x :: x in r <==> x in multiset(kept);
    r
  }

  // ---------------------------------------------------------------------
  // Filtering

  /** `_filter_topics`' search text: lower-cased, then stripped. */
  function FilterKey(text: string): string {
    Strip(Lower(text))
  }

  /** The item's own label matches: an empty search matches everything. */
  predicate Matches(t: string, item: Item) {
    t == [] || Contains(Lower(item.text), t)
  }

  /** The item or some item below it matches. */
  predicate SubtreeMatches(t: string, item: Item)
    decreases item
  {
    Matches(t, item) || exists i :: 0 <= i < |item.children| && SubtreeMatches(t, item.children[i])
  }

  /** `res` is `orig` with every item's hidden flag set exactly when nothing
      in its subtree matches, and otherwise unchanged. */
  predicate FilteredFrom(t: string, orig: Item, res: Item)
    decreases orig
  {
    res.text == orig.text && res.path == orig.path && |res.children| == |orig.children|
    && (res.hidden <==> !SubtreeMatches(t, orig))
    && forall i :: 0 <= i < |orig.children| ==> FilteredFrom(t, orig.children[i], res.children[i])
  }

  /** `filter_item`: filters every child first (all of them, no early stop),
      then shows the item if it or a visible child matches. */
  function FilterItem(t: string, item: Item): (r: Item)
    ensures FilteredFrom(t, item, r)
    decreases item, 1
  {
    var kids := FilterItems(t, item.children);
    var childMatch := exists i :: 0 <= i < |kids| && !kids[i].hidden;
    var visible := Matches(t, item) || childMatch;
    Item(item.text, item.path, !visible, kids)
  }

  function FilterItems(t: string, items: seq<Item>): (r: seq<Item>)
    ensures |r| == |items| && forall i :: 0 <= i < |items| ==> FilteredFrom(t, items[i], r[i])
    decreases items, 0
  {
    if items == [] then [] else [FilterItem(t, items[0])] + FilterItems(t, items[1..])
  }

  /** `_filter_topics` over the top-level items. */
  function FilterTopics(text: string, roots: seq<Item>): (r: seq<Item>)
    ensures |r| == |roots|
    ensures forall i :: 0 <= i < |roots| ==> FilteredFrom(FilterKey(text), roots[i], r[i])
  {
    FilterItems(FilterKey(text), roots)
  }

  /** No item anywhere in the tree is hidden. */
  predicate AllVisible(item: Item)
    decreases item
  {
    !item.hidden && forall i :: 0 <= i < |item.children| ==> AllVisible(item.children[i])
  }

  /** An empty (or blank) search shows every item. */
  lemma {:induction false} EmptyFilterShowsAll(orig: Item, res: Item)
    requires FilteredFrom([], orig, res)
    ensures AllVisible(res)
    decreases orig
  {
    forall i | 0 <= i < |orig.children|
      ensures AllVisible(res.children[i])
    {
      EmptyFilterShowsAll(orig.children[i], res.children[i]);
    }
  }

  lemma EmptyFilterTopics(text: string, roots: seq<Item>)
    requires FilterKey(text) == []
    ensures forall i :: 0 <= i < |roots| ==> AllVisible(FilterTopics(text, roots)[i])
  {
    var r := FilterTopics(text, roots);
    forall i | 0 <= i < |roots|
      ensures AllVisible(r[i])
    {
      EmptyFilterShowsAll(roots[i], r[i]);
    }
  }

  // ---------------------------------------------------------------------
  // Finding the item of a file

  /** An item that opens a file and is labelled with its name. */
  predicate Selectable(base: string, item: Item) {
    item.text == base && item.path.Some?
  }

  /** The items of a tree in pre-order. */
  function PreOrder(item: Item): (s: seq<Item>)
    ensures s != [] && s[0] == item
    decreases item, 1
  {
    [item] + PreOrderAll(item.children)
  }

  function PreOrderAll(items: seq<Item>): seq<Item>
    decreases items, 0
  {
    if items == [] then [] else PreOrder(items[0]) + PreOrderAll(items[1..])
  }

  /** `walk`: the item itself if it fits, else the first fit among its
      children's subtrees. */
  function Walk(base: string, item: Item): (r: Option<Item>)
    ensures r.Some? ==> Selectable(base, r.value)
    decreases item, 1
  {
    if Selectable(base, item) then Some(item) else WalkAll(base, item.children)
  }

  function WalkAll(base: string, items: seq<Item>): (r: Option<Item>)
    ensures r.Some? ==> Selectable(base, r.value)
    decreases items, 0
  {
    if items == [] then None
    else
      var r := Walk(base, items[0]);
      if r.Some? then r else WalkAll(base, items[1..])
  }

  /** The first selectable item of a sequence. */
  function FirstSelectable(base: string, s: seq<Item>): (r: Option<Item>)
    ensures r.None? <==> forall k :: 0 <= k < |s| ==> !Selectable(base, s[k])
    ensures r.Some? ==> exists k :: (0 <= k < |s| && s[k] == r.value && Selectable(base, s[k])
                                     && forall j :: 0 <= j < k ==> !Selectable(base, s[j]))
  {
    if s == [] then None
    else if Selectable(base, s[0]) then Some(s[0])
    else
      var r := FirstSelectable(base, s[1..]);
      assert forall k :: 1 <= k < |s| ==> s[k] == s[1..][k - 1];
      r
  }

  lemma {:induction false} FirstSelectableAppend(base: string, a: seq<Item>, b: seq<Item>)
    ensures FirstSelectable(base, a + b)
         == if FirstSelectable(base, a).Some? then FirstSelectable(base, a) else FirstSelectable(base, b)
  {
    if a != [] {
      assert (a + b)[1..] == a[1..] + b;
      FirstSelectableAppend(base, a[1..], b);
    } else {
      assert a + b == b;
    }
  }

  /** The walk finds exactly the first selectable item in pre-order. */
  lemma {:induction false} WalkIsFirst(base: string, item: Item)
    ensures Walk(base, item) == FirstSelectable(base, PreOrder(item))
    decreases item, 1
  {
    var s := PreOrder(item);
    assert s[1..] == PreOrderAll(item.children);
    WalkAllIsFirst(base, item.children);
  }

  lemma {:induction false} WalkAllIsFirst(base: string, items: seq<Item>)
    ensures WalkAll(base, items) == FirstSelectable(base, PreOrderAll(items))
    decreases items, 0
  {
    if items != [] {
      WalkIsFirst(base, items[0]);
      WalkAllIsFirst(base, items[1..]);
      FirstSelectableAppend(base, PreOrder(items[0]), PreOrderAll(items[1..]));
    }
  }

  /** `_select_list_item` for a file named `base`: the current item becomes
      the first item in pre-order labelled `base` that opens a file; without
      one the current item stays. */
  function SelectByName(current: Option<Item>, roots: seq<Item>, base: string): (r: Option<Item>)
    ensures var first := FirstSelectable(base, PreOrderAll(roots));
      r == if first.Some? then first else current
  {
    WalkAllIsFirst(base, roots);
    var found := WalkAll(base, roots);
    if found.Some? then found else current
  }

  /** `_select_list_item` of a path: by the path's file name. */
  function SelectListItem(current: Option<Item>, roots: seq<Item>, path: string): (r: Option<Item>)
    ensures forall name :: NoChar(name, '/') && EndsWith(path, "/" + name) ==> r == SelectByName(current, roots, name)
  {
    forall name | NoChar(name, '/') && EndsWith(path, "/" + name)
      ensures BaseName(path) == name
    {
      var k := |path| - |name| - 1;
      assert path == path[..k] + "/" + name;
      RFindAppendWith(path[..k], name, '/');
      assert path[..k] + "/" + name == path[..k] + ['/'] + name;
    }
    SelectByName(current, roots, BaseName(path))
  }

  // ---------------------------------------------------------------------
  // The topic opened first

  /** What `_open_default_topic` does: load a file and select an item. */
  datatype Opening = Opening(load: Option<string>, selected: Option<Item>)

  /** Loading the help file `name` and selecting its item. */
  function OpenHelpFile(dir: string, name: string, roots: seq<Item>, current: Option<Item>): (o: Opening)
    requires NoChar(name, '/')
    ensures o.load == Some(JoinPath(dir, name)) && o.selected == SelectByName(current, roots, name)
  {
    BaseNameOfJoin(dir, name);
    Opening(Some(JoinPath(dir, name)), SelectByName(current, roots, BaseName(JoinPath(dir, name))))
  }

  /** `_open_default_topic`: "index.md" in the help directory if it exists,
      else "README.md", else the first top-level item (which loads its file
      when it has one). Without a help directory nothing happens. */
  function OpenDefaultTopic(helpDir: Option<string>, indexExists: bool, readmeExists: bool,
                            roots: seq<Item>, current: Option<Item>): (o: Opening)
    ensures helpDir.None? ==> o == Opening(None, current)
    ensures helpDir.Some? && indexExists ==>
      o.load == Some(JoinPath(helpDir.value, "index.md")) && o.selected == SelectByName(current, roots, "index.md")
    ensures helpDir.Some? && !indexExists && readmeExists ==>
      o.load == Some(JoinPath(helpDir.value, "README.md")) && o.selected == SelectByName(current, roots, "README.md")
    ensures helpDir.Some? && !indexExists && !readmeExists ==>
      o == if roots == [] then Opening(None, current) else Opening(roots[0].path, Some(roots[0]))
  {
    if helpDir.None? then Opening(None, current)
    else if indexExists then OpenHelpFile(helpDir.value, "index.md", roots, current)
    else if readmeExists then OpenHelpFile(helpDir.value, "README.md", roots, current)
    else if roots == [] then Opening(None, current)
    else Opening(roots[0].path, Some(roots[0]))
  }
}
