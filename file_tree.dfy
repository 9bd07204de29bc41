/** The directory tree: `FolderNode.mount` builds it from the filesystem, the `print` methods
    of `FileNode`, `FolderNode` and `RootNode` draw it one line per node. */
module FileTree {
  import opened Paths
  import opened FileSystem
  import opened Names

  /** A mounted node. A folder's children never change once `mount` has returned, so they are
      held as values. */
  datatype Node =
    | FileNode(name: string, path: string)
    | Folder(name: string, path: string, children: seq<Node>)

  // ---------------------------------------------------------------------------------------
  // Building

  /** The filesystem paths longer than `path`; `Join` strictly lengthens a path, so this set
      shrinks at every level of `mount` and bounds its recursion. */
  ghost function Deeper(fs: Fs, path: string): set<string>
  {
    set q | q in fs && |q| > |path|
  }

  /** How many filesystem paths are longer than `path`: the measure that bounds `mount`. */
  ghost function Depth(fs: Fs, path: string): nat
  {
    |Deeper(fs, path)|
  }

  lemma DeeperShrinks(fs: Fs, path: string, child: string)
    requires child in fs && |child| > |path|
    ensures Depth(fs, child) < Depth(fs, path)
  {
    var big, small := Deeper(fs, path), Deeper(fs, child);
    assert child in big - small;
    assert big == small + (big - small);
    assert |big - small| >= 1;
  }

  /** The names `mount` visits, in the order it visits them. */
  function Items(fs: Fs, path: string): seq<Name>
    requires IsDir(fs, path)
  {
    var names := Sort(Visible(ListDir(fs, path)));
    SortedKept(ListDir(fs, path));
    assert forall k :: 0 <= k < |names| ==> names[k] in ListDir(fs, path);
    names
  }

  /** Filtering and sorting only keep names of the listing. */
  lemma SortedKept(listing: seq<string>)
    ensures forall x :: x in Sort(Visible(listing)) ==> x in listing
  {
    VisibleFilters(listing);
    SortSorted(Visible(listing));
    forall x | x in Sort(Visible(listing)) ensures x in listing {
      assert x in multiset(Sort(Visible(listing)));
    }
  }

  /** The children `mount` appends to the folder at `path`. */
  function Mounted(fs: Fs, path: string): seq<Node>
    requires IsDir(fs, path)
    decreases Depth(fs, path), 1
  {
    MountedItems(fs, path, Items(fs, path))
  }

  /** The nodes `mount` builds for `items`, one per item, in order. */
  function MountedItems(fs: Fs, path: string, items: seq<Name>): seq<Node>
    decreases Depth(fs, path), 0, |items|
  {
    if items == [] then []
    else MountedItems(fs, path, items[..|items| - 1]) + [MountedItem(fs, path, items[|items| - 1])]
  }

  /** The node `mount` builds for one entry: a mounted folder for a directory, a file otherwise. */
  function MountedItem(fs: Fs, path: string, item: Name): Node
    decreases Depth(fs, path), 0, 0
  {
    var full := Join(path, item);
    if IsDir(fs, full) then
      JoinLonger(path, item);
      DeeperShrinks(fs, path, full);
      Folder(item, full, Mounted(fs, full))
    else FileNode(item, full)
  }

  /** A folder of the tree being built; `mount` fills in its children. A root is a folder
      whose name is the display name of the working directory. */
  class FolderNode {
    const name: string
    const path: string
    var children: seq<Node>

    constructor (name: string, path: string)
      ensures this.name == name && this.path == path && children == []
    {
      this.name := name;
      this.path := path;
      children := [];
    }

    function AsNode(): Node
      reads this
    {
      Folder(name, path, children)
    }

    /** Lists the folder, drops hidden names, sorts the rest and appends one node per name:
        a mounted folder for a directory, a file otherwise. */
    method Mount(fs: Fs)
      requires IsDir(fs, path)
      modifies this
      ensures children == old(children) + Mounted(fs, path)
      decreases Depth(fs, path), 1
    {
      var items := Items(fs, path);
      ghost var start := children;
      var i := 0;
      while i < |items|
        invariant 0 <= i <= |items|
        invariant children == start + MountedItems(fs, path, items[..i])
      {
        var node := MountChild(fs, path, items[i]);
        MountedItemsSnoc(fs, path, items, i);
        children := children + [node];
        i := i + 1;
      }
      assert items[..i] == items;
    }

    /** `FolderNode.print`: the folder's own line, then each child drawn from the extended
        prefix, only the final child as the last one. */
    method Print(prefix: string, isLast: bool) returns (lines: seq<string>)
      ensures lines == Render(AsNode(), prefix, isLast)
    {
      lines := [prefix + Connector(isLast) + name];
      if children != [] {
        var newPrefix := prefix + Extension(isLast);
        var idx := 0;
        while idx < |children|
          invariant 0 <= idx <= |children|
          invariant lines + RenderChildren(children[idx..], newPrefix)
                 == [prefix + Connector(isLast) + name] + RenderChildren(children, newPrefix)
        {
          var isLastChild := idx == |children| - 1;
          RenderChildrenStep(children, newPrefix, idx);
          lines := lines + Render(children[idx], newPrefix, isLastChild);
          idx := idx + 1;
        }
        assert children[idx..] == [];
      }
    }

    /** `RootNode.print`: the bare name, then each child drawn from the default prefix. */
    method PrintAsRoot() returns (lines: seq<string>)
      ensures lines == RenderRoot(AsNode())
    {
      lines := [name];
      if children != [] {
        var idx := 0;
        while idx < |children|
          invariant 0 <= idx <= |children|
          invariant lines + RenderChildren(children[idx..], DefaultPrefix)
                 == [name] + RenderChildren(children, DefaultPrefix)
        {
          var isLastChild := idx == |children| - 1;
          RenderChildrenStep(children, DefaultPrefix, idx);
          lines := lines + Render(children[idx], DefaultPrefix, isLastChild);
          idx := idx + 1;
        }
        assert children[idx..] == [];
      }
    }
  }

  /** One step of `mount`: a freshly mounted folder for a directory entry, a file node otherwise. */
  method MountChild(fs: Fs, path: string, item: Name) returns (node: Node)
    ensures node == MountedItem(fs, path, item)
    decreases Depth(fs, path), 0
  {
    var fullPath := Join(path, item);
    if IsDir(fs, fullPath) {
      JoinLonger(path, item);
      DeeperShrinks(fs, path, fullPath);
      var folder := new FolderNode(item, fullPath);
      folder.Mount(fs);
      node := folder.AsNode();
    } else {
      node := FileNode(item, fullPath);
    }
  }

  lemma MountedItemsSnoc(fs: Fs, path: string, items: seq<Name>, i: nat)
    requires i < |items|
    ensures MountedItems(fs, path, items[..i + 1]) == MountedItems(fs, path, items[..i]) + [MountedItem(fs, path, items[i])]
  {
    assert items[..i + 1][..i] == items[..i];
  }

  // ---------------------------------------------------------------------------------------
  // Facts about the built tree

  function NamesOf(cs: seq<Node>): (r: seq<string>)
    ensures |r| == |cs|
    ensures forall k :: 0 <= k < |cs| ==> r[k] == cs[k].name
  {
    if cs == [] then [] else [cs[0].name] + NamesOf(cs[1..])
  }

  lemma {:induction false} MountedItemsShape(fs: Fs, path: string, items: seq<Name>)
    ensures |MountedItems(fs, path, items)| == |items|
    ensures forall k :: 0 <= k < |items| ==>
      var c := MountedItems(fs, path, items)[k];
      c.name == items[k] && c.path == Join(path, items[k]) &&
      (c.Folder? <==> IsDir(fs, c.path)) &&
      (c.Folder? ==> c.children == Mounted(fs, c.path))
    decreases |items|
  {
    if items != [] {
      MountedItemsShape(fs, path, items[..|items| - 1]);
    }
  }

  /** The children of a mounted folder are its visible entries, each once when the listing
      repeats no name, in ascending code-point order. */
  lemma MountedNames(fs: Fs, path: string)
    requires IsDir(fs, path)
    ensures NamesOf(Mounted(fs, path)) == Items(fs, path)
    ensures forall x :: x in NamesOf(Mounted(fs, path)) <==> x in ListDir(fs, path) && !Hidden(x)
    ensures Ascending(NamesOf(Mounted(fs, path)))
    ensures Distinct(ListDir(fs, path)) ==> Distinct(NamesOf(Mounted(fs, path)))
  {
    var items := Items(fs, path);
    MountedItemsShape(fs, path, items);
    assert NamesOf(Mounted(fs, path)) == items;
    ItemsVisible(fs, path);
    SortSorted(Visible(ListDir(fs, path)));
    if Distinct(ListDir(fs, path)) {
      VisibleDistinct(ListDir(fs, path));
      SortDistinct(Visible(ListDir(fs, path)));
    }
  }

  /** The names `mount` visits are exactly the listing's non-hidden names. */
  lemma ItemsVisible(fs: Fs, path: string)
    requires IsDir(fs, path)
    ensures forall x :: x in Items(fs, path) <==> x in ListDir(fs, path) && !Hidden(x)
  {
    var v := Visible(ListDir(fs, path));
    VisibleFilters(ListDir(fs, path));
    SortSorted(v);
    forall x ensures x in Items(fs, path) <==> x in v {
      assert x in Items(fs, path) <==> x in multiset(Items(fs, path));
      assert x in v <==> x in multiset(v);
    }
  }

  /** A child is a folder, mounted in turn, exactly when the filesystem reports a directory;
      otherwise it is a file. */
  lemma MountedKinds(fs: Fs, path: string, k: nat)
    requires IsDir(fs, path) && k < |Mounted(fs, path)|
    ensures var c := Mounted(fs, path)[k];
      c.path == Join(path, c.name) &&
      (c.Folder? <==> IsDir(fs, c.path)) &&
      (c.Folder? ==> c.children == Mounted(fs, c.path))
  {
    MountedItemsShape(fs, path, Items(fs, path));
  }

  /** No node at any depth has a hidden name. */
  predicate NoHidden(n: Node)
  {
    !Hidden(n.name) && (n.Folder? ==> forall k :: 0 <= k < |n.children| ==> NoHidden(n.children[k]))
  }

  lemma {:induction false} MountedNoHidden(fs: Fs, path: string)
    requires IsDir(fs, path)
    ensures forall k :: 0 <= k < |Mounted(fs, path)| ==> NoHidden(Mounted(fs, path)[k])
    decreases Depth(fs, path), 1
  {
    ItemsVisible(fs, path);
    MountedItemsNoHidden(fs, path, Items(fs, path));
  }

  lemma {:induction false} MountedItemsNoHidden(fs: Fs, path: string, items: seq<Name>)
    requires forall k :: 0 <= k < |items| ==> !Hidden(items[k])
    ensures forall k :: 0 <= k < |MountedItems(fs, path, items)| ==> NoHidden(MountedItems(fs, path, items)[k])
    decreases Depth(fs, path), 0, |items|
  {
    if items != [] {
      var item := items[|items| - 1];
      var full := Join(path, item);
      MountedItemsNoHidden(fs, path, items[..|items| - 1]);
      assert !Hidden(item);
      if IsDir(fs, full) {
        JoinLonger(path, item);
        DeeperShrinks(fs, path, full);
        MountedNoHidden(fs, full);
        assert MountedItem(fs, path, item) == Folder(item, full, Mounted(fs, full));
      }
      assert NoHidden(MountedItem(fs, path, item));
    }
  }

  // ---------------------------------------------------------------------------------------
  // Rendering

  /** The connector drawn before a node's name. */
  function Connector(isLast: bool): string
  {
    if isLast then "└── " else "├── "
  }

  /** What a folder adds to the prefix of its children's lines. */
  function Extension(isLast: bool): string
  {
    if isLast then "    " else "│   "
  }

  /** The prefix the root's children are drawn with. */
  const DefaultPrefix: string := "    "

  /** `FileNode.print` and `FolderNode.print`: the node's own line, then its children's. */
  function Render(n: Node, prefix: string, isLast: bool): seq<string>
    decreases n
  {
    [prefix + Connector(isLast) + n.name] +
    (if n.Folder? then RenderChildren(n.children, prefix + Extension(isLast)) else [])
  }

  /** The loop over a folder's children: only the final child is drawn as the last one. */
  function RenderChildren(cs: seq<Node>, prefix: string): seq<string>
    decreases cs
  {
    if cs == [] then [] else Render(cs[0], prefix, |cs| == 1) + RenderChildren(cs[1..], prefix)
  }

  /** `RootNode.print`: the bare root name, then its children from the default prefix. */
  function RenderRoot(root: Node): seq<string>
  {
    [root.name] + (if root.Folder? then RenderChildren(root.children, DefaultPrefix) else [])
  }

  /** Drawing the children from position `i` on draws child `i`, marked last exactly when it is
      the final one, then the children after it. */
  lemma RenderChildrenStep(cs: seq<Node>, prefix: string, i: nat)
    requires i < |cs|
    ensures RenderChildren(cs[i..], prefix)
         == Render(cs[i], prefix, i == |cs| - 1) + RenderChildren(cs[i + 1..], prefix)
  {
    assert cs[i..][0] == cs[i] && cs[i..][1..] == cs[i + 1..];
  }

  /** A file is drawn as exactly one line, with the last-sibling connector exactly when it is
      the last sibling. */
  lemma FileLine(name: string, path: string, prefix: string, isLast: bool)
    ensures Render(FileNode(name, path), prefix, isLast) == [prefix + Connector(isLast) + name]
    ensures Connector(isLast) == "└── " <==> isLast
  {
  }

  /** Number of nodes of a subtree. */
  function Size(n: Node): nat
    decreases n
  {
    1 + (if n.Folder? then SizeAll(n.children) else 0)
  }

  function SizeAll(cs: seq<Node>): nat
    decreases cs
  {
    if cs == [] then 0 else Size(cs[0]) + SizeAll(cs[1..])
  }

  /** The names of a subtree in pre-order. */
  function PreOrder(n: Node): seq<string>
    decreases n
  {
    [n.name] + (if n.Folder? then PreOrderAll(n.children) else [])
  }

  function PreOrderAll(cs: seq<Node>): seq<string>
    decreases cs
  {
    if cs == [] then [] else PreOrder(cs[0]) + PreOrderAll(cs[1..])
  }

  predicate EndsWith(s: string, suffix: string)
  {
    |suffix| <= |s| && s[|s| - |suffix|..] == suffix
  }

  /** One line per node, in pre-order: every line starts with the prefix it was drawn with and
      ends with the name of the node it stands for. */
  lemma {:induction false} RenderLines(n: Node, prefix: string, isLast: bool)
    ensures |Render(n, prefix, isLast)| == Size(n) == |PreOrder(n)|
    ensures forall k :: 0 <= k < Size(n) ==>
      StartsWith(Render(n, prefix, isLast)[k], prefix) && EndsWith(Render(n, prefix, isLast)[k], PreOrder(n)[k])
    decreases n
  {
    var own := prefix + Connector(isLast) + n.name;
    assert StartsWith(own, prefix) && EndsWith(own, n.name);
    if n.Folder? {
      var ext := prefix + Extension(isLast);
      RenderChildrenLines(n.children, ext);
      forall k | 1 <= k < Size(n)
        ensures StartsWith(Render(n, prefix, isLast)[k], prefix)
      {
        var line := RenderChildren(n.children, ext)[k - 1];
        assert StartsWith(line, ext);
        assert line[..|prefix|] == ext[..|prefix|];
      }
    }
  }

  lemma {:induction false} RenderChildrenLines(cs: seq<Node>, prefix: string)
    ensures |RenderChildren(cs, prefix)| == SizeAll(cs) == |PreOrderAll(cs)|
    ensures forall k :: 0 <= k < SizeAll(cs) ==>
      StartsWith(RenderChildren(cs, prefix)[k], prefix) && EndsWith(RenderChildren(cs, prefix)[k], PreOrderAll(cs)[k])
    decreases cs
  {
    if cs != [] {
      RenderLines(cs[0], prefix, |cs| == 1);
      RenderChildrenLines(cs[1..], prefix);
    }
  }

  /** Children are drawn in order, each as one contiguous block that starts after the blocks of
      its earlier siblings; only the final child gets the last connector. */
  lemma {:induction false} ChildBlock(cs: seq<Node>, prefix: string, i: nat)
    requires i < |cs|
    ensures SizeAll(cs[..i]) + Size(cs[i]) <= |RenderChildren(cs, prefix)|
    ensures RenderChildren(cs, prefix)[SizeAll(cs[..i])..SizeAll(cs[..i]) + Size(cs[i])]
         == Render(cs[i], prefix, i == |cs| - 1)
    decreases i
  {
    if i == 0 {
      assert RenderChildren(cs, prefix) == Render(cs[0], prefix, |cs| == 1) + RenderChildren(cs[1..], prefix);
      RenderLength(cs[0], prefix, |cs| == 1);
      assert cs[..0] == [];
    } else {
      ChildBlock(cs[1..], prefix, i - 1);
      assert cs[1..][i - 1] == cs[i];
      ChildBlockShift(cs, prefix, i);
    }
  }

  /** The block of child `i` among `cs[1..]`, moved past the block of `cs[0]`. */
  lemma ChildBlockShift(cs: seq<Node>, prefix: string, i: nat)
    requires 0 < i < |cs|
    requires SizeAll(cs[1..][..i - 1]) + Size(cs[i]) <= |RenderChildren(cs[1..], prefix)|
    requires RenderChildren(cs[1..], prefix)[SizeAll(cs[1..][..i - 1])..SizeAll(cs[1..][..i - 1]) + Size(cs[i])]
          == Render(cs[i], prefix, i == |cs| - 1)
    ensures SizeAll(cs[..i]) + Size(cs[i]) <= |RenderChildren(cs, prefix)|
    ensures RenderChildren(cs, prefix)[SizeAll(cs[..i])..SizeAll(cs[..i]) + Size(cs[i])]
         == Render(cs[i], prefix, i == |cs| - 1)
  {
    var head := Render(cs[0], prefix, |cs| == 1);
    var tail := RenderChildren(cs[1..], prefix);
    assert RenderChildren(cs, prefix) == head + tail;
    RenderLength(cs[0], prefix, |cs| == 1);
    var lo := SizeAll(cs[1..][..i - 1]);
    SizeAllPrefix(cs, i);
    SliceShift(head, tail, lo, lo + Size(cs[i]));
  }

  lemma SizeAllPrefix(cs: seq<Node>, i: nat)
    requires 0 < i <= |cs|
    ensures SizeAll(cs[..i]) == Size(cs[0]) + SizeAll(cs[1..][..i - 1])
  {
    assert cs[..i][1..] == cs[1..][..i - 1];
  }

  lemma RenderLength(n: Node, prefix: string, isLast: bool)
    ensures |Render(n, prefix, isLast)| == Size(n)
  {
    RenderLines(n, prefix, isLast);
  }

  lemma SliceShift(a: seq<string>, b: seq<string>, lo: nat, hi: nat)
    requires lo <= hi <= |b|
    ensures (a + b)[|a| + lo..|a| + hi] == b[lo..hi]
  {
  }

  /** The first line of a child's block is the child's own line. */
  lemma ChildLine(cs: seq<Node>, prefix: string, i: nat)
    requires i < |cs|
    ensures SizeAll(cs[..i]) < |RenderChildren(cs, prefix)|
    ensures RenderChildren(cs, prefix)[SizeAll(cs[..i])] == prefix + Connector(i == |cs| - 1) + cs[i].name
  {
    ChildBlock(cs, prefix, i);
    var lo := SizeAll(cs[..i]);
    assert RenderChildren(cs, prefix)[lo] == RenderChildren(cs, prefix)[lo..lo + Size(cs[i])][0];
  }

  /** Every node's own line comes first, whether or not it has children. */
  lemma OwnLine(n: Node, prefix: string, isLast: bool)
    ensures Render(n, prefix, isLast)[0] == prefix + Connector(isLast) + n.name
  {
  }

  /** The root draws its bare name, then one line per node below it, in pre-order, each drawn
      from the default prefix; this holds also for a root without children. */
  lemma RootLines(root: Node)
    requires root.Folder?
    ensures RenderRoot(root)[0] == root.name
    ensures |RenderRoot(root)| == Size(root) == |PreOrder(root)|
    ensures forall k :: 1 <= k < Size(root) ==>
      StartsWith(RenderRoot(root)[k], DefaultPrefix) && EndsWith(RenderRoot(root)[k], PreOrder(root)[k])
  {
    RenderChildrenLines(root.children, DefaultPrefix);
  }

  /** A folder's line comes first; child `i` is drawn after the folder line and its earlier
      siblings, with the folder's prefix extended by blanks if the folder was last, by a bar
      otherwise. */
  lemma FolderChildLine(n: Node, prefix: string, isLast: bool, i: nat)
    requires n.Folder? && i < |n.children|
    ensures Render(n, prefix, isLast)[0] == prefix + Connector(isLast) + n.name
    ensures 1 + SizeAll(n.children[..i]) < |Render(n, prefix, isLast)|
    ensures Render(n, prefix, isLast)[1 + SizeAll(n.children[..i])]
         == prefix + (if isLast then "    " else "│   ") + Connector(i == |n.children| - 1) + n.children[i].name
  {
    ChildLine(n.children, prefix + Extension(isLast), i);
  }

  /** The root line is the bare name; the root's children are drawn from four blanks. */
  lemma RootChildLine(root: Node, i: nat)
    requires root.Folder? && i < |root.children|
    ensures RenderRoot(root)[0] == root.name
    ensures |RenderRoot(root)| == Size(root)
    ensures 1 + SizeAll(root.children[..i]) < |RenderRoot(root)|
    ensures RenderRoot(root)[1 + SizeAll(root.children[..i])]
         == "    " + Connector(i == |root.children| - 1) + root.children[i].name
  {
    RenderChildrenLines(root.children, DefaultPrefix);
    ChildLine(root.children, DefaultPrefix, i);
  }
}
