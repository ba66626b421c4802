/**
 * The project explorer's directory tree (FileTree.cpp): a `DirectoryNode`
 * tree built from a listing of the file system, with the children of every
 * node sorted so that directories come before files.
 *
 * The file system is an input: a finite tree of listing entries, each with
 * the path `directory_iterator` reports for it.
 */
module FileTree {

  /** What the file system holds at a path: a directory with its listing, or anything else. */
  datatype FsEntry =
    | Directory(path: string, entries: seq<FsEntry>)
    | NotDirectory(path: string)

  /** `DirectoryNode`. */
  datatype DirectoryNode = DirectoryNode(fullPath: string, fileName: string, children: seq<DirectoryNode>, isDirectory: bool)

  /** Both separators `std::filesystem::path` accepts on Windows. */
  predicate IsSeparator(c: char)
  {
    c == '/' || c == '\\'
  }

  /** `path::filename()`: the last component, empty when the path ends with a separator. */
  function FileName(p: string): (name: string)
    ensures |name| <= |p| && name == p[|p| - |name|..]
    ensures forall i :: 0 <= i < |name| ==> !IsSeparator(name[i])
    ensures |name| < |p| ==> IsSeparator(p[|p| - |name| - 1])
  {
    if p == [] || IsSeparator(p[|p| - 1]) then [] else FileName(p[..|p| - 1]) + [p[|p| - 1]]
  }

  /** The name a directory entry is listed under is what `FileName` recovers from its path. */
  lemma {:induction false} FileNameOfChild(dir: string, sep: char, name: string)
    requires IsSeparator(sep)
    requires forall i :: 0 <= i < |name| ==> !IsSeparator(name[i])
    ensures FileName(dir + [sep] + name) == name
  {
    if name != [] {
      var last := name[|name| - 1];
      var init := name[..|name| - 1];
      assert dir + [sep] + name == (dir + [sep] + init) + [last];
      assert (dir + [sep] + name)[..|dir + [sep] + name| - 1] == dir + [sep] + init;
      FileNameOfChild(dir, sep, init);
    } else {
      assert dir + [sep] + name == dir + [sep];
    }
  }

  /** Within a list of children no file precedes a directory. */
  predicate DirectoriesFirst(nodes: seq<DirectoryNode>)
  {
    forall i, j :: 0 <= i < j < |nodes| ==> nodes[i].isDirectory || !nodes[j].isDirectory
  }

  /** The files, or the directories, of `nodes`, in their order. */
  function Kind(nodes: seq<DirectoryNode>, directories: bool): (picked: seq<DirectoryNode>)
    ensures forall k :: 0 <= k < |picked| ==> picked[k].isDirectory == directories
  {
    if nodes == [] then []
    else
      var rest := Kind(nodes[..|nodes| - 1], directories);
      if nodes[|nodes| - 1].isDirectory == directories then rest + [nodes[|nodes| - 1]] else rest
  }

  /** The two groups of `Kind` together are the nodes again. */
  lemma {:induction false} KindsSplit(nodes: seq<DirectoryNode>)
    ensures multiset(Kind(nodes, true)) + multiset(Kind(nodes, false)) == multiset(nodes)
  {
    if nodes != [] {
      var init := nodes[..|nodes| - 1];
      KindsSplit(init);
      assert nodes == init + [nodes[|nodes| - 1]];
    }
  }

  /**
   * The order `std::sort` with `moveDirectoriesToFront` leaves the children
   * in, taking the order within each group from the listing: directories
   * first, then files.
   */
  function DirectoriesToFront(nodes: seq<DirectoryNode>): seq<DirectoryNode>
  {
    Kind(nodes, true) + Kind(nodes, false)
  }

  /** Moving directories to the front permutes the nodes and leaves no file before a directory. */
  lemma DirectoriesToFrontSorts(nodes: seq<DirectoryNode>)
    ensures DirectoriesFirst(DirectoriesToFront(nodes))
    ensures multiset(DirectoriesToFront(nodes)) == multiset(nodes)
  {
    KindsSplit(nodes);
  }

  /**
   * `std::sort` with `moveDirectoriesToFront`: the children are permuted so
   * that directories precede files, here keeping the listing's order within
   * each group.
   */
  method MoveDirectoriesToFront(nodes: seq<DirectoryNode>) returns (sorted: seq<DirectoryNode>)
    ensures sorted == DirectoriesToFront(nodes)
    ensures DirectoriesFirst(sorted) && multiset(sorted) == multiset(nodes)
  {
    var directories: seq<DirectoryNode> := [];
    var files: seq<DirectoryNode> := [];
    for i := 0 to |nodes|
      invariant directories == Kind(nodes[..i], true)
      invariant files == Kind(nodes[..i], false)
    {
      assert nodes[..i + 1][..i] == nodes[..i];
      if nodes[i].isDirectory {
        directories := directories + [nodes[i]];
      } else {
        files := files + [nodes[i]];
      }
    }
    assert nodes[..|nodes|] == nodes;
    sorted := directories + files;
    DirectoriesToFrontSorts(nodes);
  }

  /**
   * The tree built from a listing entry: paths and kind from the entry, and
   * for a directory one child per entry of its listing, directories first.
   */
  function Build(entry: FsEntry): (node: DirectoryNode)
    decreases entry, 2
  {
    var node := DirectoryNode(entry.path, FileName(entry.path), [], entry.Directory?);
    if entry.Directory? then AddedTo(node, entry.entries) else node
  }

  /** `parent` after its listing has been added: the old children plus one tree per entry, directories first. */
  function AddedTo(parent: DirectoryNode, entries: seq<FsEntry>): (node: DirectoryNode)
    decreases entries, 1
  {
    parent.(children := DirectoriesToFront(parent.children + BuildAll(entries)))
  }

  /** One tree per entry, in listing order. */
  function BuildAll(entries: seq<FsEntry>): (built: seq<DirectoryNode>)
    ensures |built| == |entries|
    decreases entries, 0
  {
    if entries == [] then [] else BuildAll(entries[..|entries| - 1]) + [Build(entries[|entries| - 1])]
  }

  /** Building one more entry of a listing appends that entry's tree. */
  lemma BuildAllStep(entries: seq<FsEntry>, i: nat)
    requires i < |entries|
    ensures BuildAll(entries[..i + 1]) == BuildAll(entries[..i]) + [Build(entries[i])]
  {
    assert entries[..i + 1][..i] == entries[..i];
  }

  /** One iteration of the loop in `RecursivelyAddDirectoryNodes` keeps its invariant. */
  lemma ListingStep(children: seq<DirectoryNode>, entries: seq<FsEntry>, i: nat, added: seq<DirectoryNode>, child: DirectoryNode)
    requires i < |entries| && added == children + BuildAll(entries[..i]) && child == Build(entries[i])
    ensures added + [child] == children + BuildAll(entries[..i + 1])
  {
    BuildAllStep(entries, i);
  }

  /** The `i`-th tree of `BuildAll` is the tree of the `i`-th entry. */
  lemma {:induction false} BuildAllAt(entries: seq<FsEntry>, i: nat)
    requires i < |entries|
    ensures BuildAll(entries)[i] == Build(entries[i])
  {
    if i < |entries| - 1 {
      BuildAllAt(entries[..|entries| - 1], i);
    }
  }

  /** A directory's children are the trees of its listing, moved directories first. */
  lemma DirectoryChildren(entry: FsEntry)
    requires entry.Directory?
    ensures Build(entry).children == DirectoriesToFront(BuildAll(entry.entries))
  {
    assert [] + BuildAll(entry.entries) == BuildAll(entry.entries);
  }

  /** Two lists with the same multiset have the same length and the same members. */
  lemma SameMembers(xs: seq<DirectoryNode>, ys: seq<DirectoryNode>)
    requires multiset(xs) == multiset(ys)
    ensures |xs| == |ys|
    ensures forall x :: x in xs <==> x in ys
  {
    assert |xs| == |multiset(xs)| == |multiset(ys)| == |ys|;
    forall x
      ensures x in xs <==> x in ys
    {
      assert x in xs <==> x in multiset(xs);
      assert x in ys <==> x in multiset(ys);
    }
  }

  /** A member of a permutation of `built` sits at some index of `built`. */
  lemma PermutedMember(children: seq<DirectoryNode>, built: seq<DirectoryNode>, c: DirectoryNode) returns (i: nat)
    requires multiset(children) == multiset(built) && c in children
    ensures i < |built| && built[i] == c
  {
    assert c in multiset(children);
    i :| 0 <= i < |built| && built[i] == c;
  }

  /** Every child of a directory's node is the tree of one of its entries. */
  lemma ChildFromEntry(entry: FsEntry, c: DirectoryNode)
    requires entry.Directory? && c in Build(entry).children
    ensures exists i :: 0 <= i < |entry.entries| && c == Build(entry.entries[i])
  {
    var built := BuildAll(entry.entries);
    DirectoryChildren(entry);
    DirectoriesToFrontSorts(built);
    var i := PermutedMember(Build(entry).children, built, c);
    BuildAllAt(entry.entries, i);
  }

  /** The tree of every entry of a directory is among the children of the directory's node. */
  lemma EntryGivesChild(entry: FsEntry, i: nat)
    requires entry.Directory? && i < |entry.entries|
    ensures Build(entry.entries[i]) in Build(entry).children
  {
    var built := BuildAll(entry.entries);
    DirectoryChildren(entry);
    DirectoriesToFrontSorts(built);
    SameMembers(Build(entry).children, built);
    BuildAllAt(entry.entries, i);
    assert built[i] in built;
  }

  /**
   * A directory's node has exactly one child per listing entry: as many
   * children as entries, every child the tree of some entry, every entry's
   * tree among the children, and no file before a directory.
   */
  lemma ChildrenCorrespond(entry: FsEntry)
    requires entry.Directory?
    ensures |Build(entry).children| == |entry.entries|
    ensures DirectoriesFirst(Build(entry).children)
    ensures forall c :: c in Build(entry).children ==> exists i :: 0 <= i < |entry.entries| && c == Build(entry.entries[i])
    ensures forall i :: 0 <= i < |entry.entries| ==> Build(entry.entries[i]) in Build(entry).children
  {
    var built := BuildAll(entry.entries);
    DirectoryChildren(entry);
    DirectoriesToFrontSorts(built);
    SameMembers(Build(entry).children, built);
    forall c | c in Build(entry).children
      ensures exists i :: 0 <= i < |entry.entries| && c == Build(entry.entries[i])
    {
      ChildFromEntry(entry, c);
    }
    forall i | 0 <= i < |entry.entries|
      ensures Build(entry.entries[i]) in Build(entry).children
    {
      EntryGivesChild(entry, i);
    }
  }

  /** A non-directory's node has no children, and every node takes its paths and kind from its entry. */
  lemma BuildKeepsEntry(entry: FsEntry)
    ensures Build(entry).fullPath == entry.path && Build(entry).fileName == FileName(entry.path)
    ensures Build(entry).isDirectory == entry.Directory?
    ensures entry.NotDirectory? ==> Build(entry).children == []
  {
  }

  /** Every node of a built tree lists directories before files. */
  ghost predicate SortedTree(node: DirectoryNode)
  {
    DirectoriesFirst(node.children) && forall c :: c in node.children ==> SortedTree(c)
  }

  /** The whole tree built from an entry is sorted, not only its top level. */
  lemma {:induction false} BuildSorted(entry: FsEntry)
    ensures SortedTree(Build(entry))
  {
    if entry.Directory? {
      DirectoryChildren(entry);
      DirectoriesToFrontSorts(BuildAll(entry.entries));
      forall c | c in Build(entry).children
        ensures SortedTree(c)
      {
        ChildFromEntry(entry, c);
        var i :| 0 <= i < |entry.entries| && c == Build(entry.entries[i]);
        BuildSorted(entry.entries[i]);
      }
    }
  }

  /**
   * `RecursivelyAddDirectoryNodes`: one child per listing entry, appended to
   * the children the node already has, each recursed into when it is a
   * directory; then all children are sorted directories first.
   */
  method RecursivelyAddDirectoryNodes(parent: DirectoryNode, entries: seq<FsEntry>) returns (node: DirectoryNode)
    ensures node == AddedTo(parent, entries)
    decreases entries, 1
  {
    var children := parent.children;
    for i := 0 to |entries|
      invariant children == parent.children + BuildAll(entries[..i])
    {
      var child := AddChildNode(entries[i]);
      ListingStep(parent.children, entries, i, children, child);
      children := children + [child];
    }
    assert entries[..|entries|] == entries;
    var sorted := MoveDirectoriesToFront(children);
    node := parent.(children := sorted);
  }

  /**
   * The body of the loop in `RecursivelyAddDirectoryNodes`: the child's
   * paths and kind come from the entry, and a directory is recursed into.
   */
  method AddChildNode(entry: FsEntry) returns (child: DirectoryNode)
    ensures child == Build(entry)
    decreases entry, 0
  {
    var node := DirectoryNode(entry.path, FileName(entry.path), [], entry.Directory?);
    if entry.Directory? {
      child := RecursivelyAddDirectoryNodes(node, entry.entries);
    } else {
      child := node;
    }
  }

  /**
   * `CreateDirectryNodeTreeFromPath`: the root node for a path, whose
   * subtree is filled in only when the path is a directory.
   */
  method CreateDirectryNodeTreeFromPath(root: FsEntry) returns (node: DirectoryNode)
    ensures node == Build(root)
  {
    var rootNode := DirectoryNode(root.path, FileName(root.path), [], root.Directory?);
    if root.Directory? {
      node := RecursivelyAddDirectoryNodes(rootNode, root.entries);
    } else {
      node := rootNode;
    }
  }
}
