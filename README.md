# cat-context core, modelled in Dafny

cat-context prints two things for a working directory:

- a tree of its non-hidden entries;
- the contents of the files the user asks for, each in a fenced block headed by its path relative to the working directory, or a one-line warning when a requested file may not be shown.

This project models the two modules that do the work, `src/file_tree.py` and `src/file_content.py`, and proves what they promise.

The project has five modules:

- **`Paths`** (`paths.dfy`) covers the string-level path operations the code relies on:
  - `str.startswith`, as the raw character-prefix test `StartsWith`;
  - `os.path.join` of a directory and one name, as `Join`. It adds a separator only when the directory does not already end in one (the root `/` does), and an absolute name replaces the directory;
  - `os.path.relpath` on normalised absolute paths, as `RelPath`. It splits both paths into components, drops the common leading part, climbs with `..` once for every remaining component of the start directory, and appends the rest of the path.
- **`FileSystem`** (`filesystem.dfy`) is an abstract, read-only snapshot of the filesystem: a map from absolute path to a regular file or a directory.
  - A regular file holds its text, or the message of the exception raised while reading it.
  - A directory holds its `os.listdir` result, in the order the operating system returns it. Each entry name is non-empty and contains no separator.
  - `os.path.isdir`, `os.path.isfile`, `os.listdir` and `open(...).read()` are functions of this map.
- **`Names`** (`names.dfy`) covers name handling in `mount`:
  - the hidden-name filter `Visible`;
  - Python's string order, `Below`, which compares code points lexicographically;
  - `sorted`, written as an insertion sort `Sort`, with a proof that the ascending permutation of a list is unique. Any correct `sorted` therefore gives the same result.
- **`FileTree`** (`file_tree.dfy`) holds the tree.
  - `FolderNode` is a class whose `Mount` method fills its `children` field in a loop. Each directory entry becomes a freshly mounted `FolderNode` or a leaf `FileNode`.
  - `Print` and `PrintAsRoot` are the `print` methods of `FolderNode` and `RootNode`.
  - The expected tree is specified by the functions `Mounted`/`MountedItems`/`MountedItem`. The drawing is specified by `Render`, `RenderChildren` and `RenderRoot`, one string per printed line.
- **`FileContent`** (`file_content.dfy`) holds the file display.
  - `FileChecker.IsDisplayable` runs the three checks in order and records the warning of the first one that fails. It is specified by `Judge` and `WarningText`. `GetWarning` returns the recorded warning.
  - `PrintContent` is `FilePrinter.print_content`, one string per printed line.
  - `FileContentManager.ProcessFiles` runs a fresh checker over every requested path, prints a block or a warning, and records the files it printed. It is specified by `Report`, the concatenated output of `Outcome` per path, and by `Shown`.

## Model

| member | source | states |
|---|---|---|
| FileSystem.Read | src/file_content.py:41-43 | reading an existing regular file yields its stored contents; reading a missing path or a directory always fails |
| Names.VisibleFilters | src/file_tree.py:33 | the filtered listing holds exactly the listed names that do not start with `.`, and no name more often than the listing does |
| Names.Visible | src/file_tree.py:33 | the comprehension that drops names starting with `.`; `VisibleFilters` states what it keeps and `VisibleDistinct` that it adds no repeats |
| Names.SortSorted | src/file_tree.py:33 | `sorted` returns an ascending (code-point order) permutation of its argument |
| Names.Sort | src/file_tree.py:33 | `sorted` on the filtered names; `SortSorted` proves the result an ascending permutation, `SortedIsUnique` that it is the only one, `SortDistinct` that repeat-free input stays strictly ascending |
| Names.InsertSorted | src/file_tree.py:33 | inserting a name into an ascending list keeps it ascending and adds exactly that name |
| Names.SortedIsUnique | src/file_tree.py:33 | two ascending lists with the same elements are equal, so the sorted order is determined by the names alone |
| Names.SortDistinct | src/file_tree.py:33 | sorting a list without repeats gives a strictly ascending list without repeats |
| Names.VisibleDistinct | src/file_tree.py:33 | filtering a listing without repeats leaves no repeats |
| Names.ListingOrder | src/file_tree.py:33 | whatever order the listing gives them in, `README.md`, `file4.txt`, `folder1`, `folder2` sort in exactly that order (capitals first, and a file may sort before folders) |
| FileTree.FolderNode.constructor | src/file_tree.py:28-30 | a new folder has the given name and path and no children |
| FileTree.FolderNode.Mount | src/file_tree.py:32-41 | `mount` appends to the existing children exactly the nodes `Mounted` specifies for the folder's path |
| FileTree.MountChild | src/file_tree.py:35-40 | one loop step builds a folder node that is mounted in turn when the entry is a directory, and a file node otherwise |
| FileTree.Mounted | src/file_tree.py:32-41 | the children `mount` gives the folder at a path: one node per sorted non-hidden entry; `MountedNames`, `MountedKinds` and `MountedNoHidden` state its names, order, kinds and recursion |
| FileTree.MountedItems | src/file_tree.py:34-41 | the nodes the `for` loop appends for a list of entries, in order; `MountedItemsShape` states one node per entry with its name, joined path and kind, and `MountedItemsNoHidden` that no hidden name appears below |
| FileTree.MountedItem | src/file_tree.py:35-40 | the node for one entry: a folder mounted in turn when the joined path is a directory, a file otherwise; `MountChild` is proved to build exactly it |
| FileTree.MountedNames | src/file_tree.py:33-41 | after `mount`, the children's names are the non-hidden listing entries, in ascending code-point order, each once when the listing repeats no name |
| FileTree.ItemsVisible | src/file_tree.py:33 | the names `mount` iterates over are exactly the non-hidden listing entries |
| FileTree.MountedItemsShape | src/file_tree.py:34-41 | one child per item, in item order, each with the item's name and the joined path, a folder exactly when that path is a directory, and a folder's children are its own mounted children |
| FileTree.MountedKinds | src/file_tree.py:36-40 | every child's path is the folder path joined with its name; the child is a folder, itself mounted, exactly when the filesystem reports a directory |
| FileTree.MountedNoHidden | src/file_tree.py:33-38 | no node at any depth below a mounted folder has a hidden name |
| FileTree.MountedItemsNoHidden | src/file_tree.py:33-38 | nodes built from non-hidden items contain no hidden name at any depth |
| FileTree.FolderNode.Print | src/file_tree.py:43-50 | the folder's `print` loop emits exactly the lines of `Render` for this folder |
| FileTree.FolderNode.PrintAsRoot | src/file_tree.py:53-58 | `RootNode.print` emits exactly the lines of `RenderRoot` for this folder |
| FileTree.Render | src/file_tree.py:43-50 | the lines `FolderNode.print` (and, for a file, `FileNode.print` at src/file_tree.py:22-24) prints; `FileLine`, `OwnLine`, `RenderLines` and `FolderChildLine` state its shape |
| FileTree.RenderChildren | src/file_tree.py:46-50 | the lines of the loop over a folder's children; `RenderChildrenStep`, `ChildBlock`, `ChildLine` and `RenderChildrenLines` state that each child is one contiguous block, last-marked only for the final child |
| FileTree.RenderRoot | src/file_tree.py:53-58 | the lines `RootNode.print` prints; `RootLines` and `RootChildLine` state the bare first line, one line per node and the four-blank prefix of its children |
| FileTree.FileLine | src/file_tree.py:22-24 | a file renders as the single line prefix + connector + name, and the connector is `└── ` exactly when the node is last |
| FileTree.RenderLines | src/file_tree.py:43-50 | a subtree renders as one line per node, in pre-order; every line starts with the prefix it was drawn with and ends with its node's name |
| FileTree.RenderChildrenLines | src/file_tree.py:46-50 | the children render as one line per descendant node, in pre-order, each line starting with the children's prefix |
| FileTree.RenderChildrenStep | src/file_tree.py:48-50 | drawing children from position i draws child i, marked last exactly when it is the final child, then the children after it |
| FileTree.ChildBlock | src/file_tree.py:48-50 | child i is drawn as one contiguous block, right after the blocks of its earlier siblings, marked last exactly when it is the final child |
| FileTree.ChildLine | src/file_tree.py:48-50 | the first line of child i's block is prefix + connector + name, with `└── ` only for the final child |
| FileTree.OwnLine | src/file_tree.py:43-45 | every node, with or without children, draws its own line first: prefix + connector + name |
| FileTree.FolderChildLine | src/file_tree.py:43-50 | for a folder with a child i, the folder's own line comes first; child i's line follows the earlier siblings' blocks, and its prefix is the folder's prefix extended by four blanks if the folder was last and by a bar and three blanks otherwise |
| FileTree.RootLines | src/file_tree.py:53-58 | the root, also one with no visible entries, draws its bare name first, then one line per node in pre-order, each starting with four blanks and ending with its node's name |
| FileTree.RootChildLine | src/file_tree.py:53-58 | for a root with a child i, the root's first line is its bare name, the root draws one line per node, and child i's line is four blanks, connector and name, after its earlier siblings' blocks |
| FileContent.FileChecker.constructor | src/file_content.py:4-8 | a new checker holds the given paths and no warning |
| FileContent.FileChecker.IsDisplayable | src/file_content.py:10-24 | returns true exactly when all three checks pass, and then leaves the warning untouched; otherwise it records the warning of the first failing check, naming the path relative to the cwd |
| FileContent.Judge | src/file_content.py:10-24 | the first failing check of `is_displayable`, or displayable; `JudgeOrder` states the order of the checks and when all pass, `NoIgnorePaths`, `IgnoreIsRawPrefix` and `ContainmentIsRawPrefix` their raw-prefix nature |
| FileContent.WarningText | src/file_content.py:13-21 | the three warning texts; `WarningsDiffer` proves them pairwise different, `MissingFileWarning` and `IgnoredFileWarning` give the exact text for a path below the cwd |
| FileContent.FileChecker.GetWarning | src/file_content.py:26-27 | `get_warning` returns the recorded warning; `IsDisplayable` states what it holds after a check, and `ProcessFile` prints it for a refused path |
| FileContent.FileChecker.RelativePath | src/file_content.py:29-30 | `get_relative_path` is `RelPath` of the checked path from the cwd; `WarnedBelowCwd` states that a path below the cwd is named by its part after the cwd |
| FileContent.JudgeOrder | src/file_content.py:10-22 | a path outside the cwd gets the containment verdict whatever else is wrong with it; a non-file under the cwd gets the existence verdict before any ignore check; a path is displayable exactly when it starts with the cwd, is a file, and starts with no ignore path |
| FileContent.NoIgnorePaths | src/file_content.py:19-24 | with no ignore paths, every existing file under the cwd is displayable |
| FileContent.IgnoreIsRawPrefix | src/file_content.py:20 | an ignore path rejects every existing file under the cwd whose path merely begins with it as a string, so `/r/folder1` rejects `/r/folder10/x` |
| FileContent.ContainmentIsRawPrefix | src/file_content.py:12 | with cwd `parent/a` and no ignore paths, an existing file under `parent/ab` is displayed, and its header is `./../ab/...` |
| FileContent.WarningsDiffer | src/file_content.py:13-21 | the three warnings for the same path are pairwise different, so the text names the check that failed |
| FileContent.WarnedBelowCwd | src/file_content.py:29-30 | the warning for a refused path below the cwd names that path relative to the cwd |
| FileContent.MissingFileWarning | src/file_content.py:15-17 | a requested path below the cwd that is not a file prints exactly the "does not exist or is not a file." warning with its relative path |
| FileContent.IgnoredFileWarning | src/file_content.py:19-22 | a file named explicitly but lying under an ignored folder prints exactly the "was not displayed (it is under an ignored path)." warning |
| FileContent.PrintedBlock | src/file_content.py:37-47 | a displayed file prints a blank line, `./` + its path below the cwd, a fence, its text (or `Error reading file '<rel>': <reason>` when reading fails), and a fence |
| FileContent.PrintContent | src/file_content.py:37-47 | the five lines `print_content` prints; `PrintedBlock` and `OutcomeShape` state the blank line, `./<rel>` header, fences and the text or read error between them |
| FileContent.FileContentManager.constructor | src/file_content.py:50-54 | a new manager holds the given paths and no displayed files |
| FileContent.FileContentManager.ProcessFiles | src/file_content.py:56-64 | prints exactly `Report`, the per-path outcomes in input order, and adds exactly the displayable requested paths to the displayed files |
| FileContent.FileContentManager.ProcessFile | src/file_content.py:58-64 | one iteration prints the path's block when it is displayable and its warning otherwise, and records it as displayed exactly when displayable |
| FileContent.ReportSnoc | src/file_content.py:57-64 | handling one more path appends exactly its own outcome to the output and adds it to the displayed set only when it is displayable |
| FileContent.ReportAppend | src/file_content.py:57-64 | the output for two lists of requests is the output for the first followed by that for the second: no request affects another |
| FileContent.ReportAt | src/file_content.py:57-64 | the output for request i sits between the outputs of the requests before it and after it |
| FileContent.OutcomeShape | src/file_content.py:59-64 | a request prints a five-line block exactly when it is displayable and one warning line otherwise; the warning starts with `Warning: '<rel>' `, and the block is a blank line, the `./<rel>` header, a fence, the text or read error, and a fence |
| FileContent.ShownExactly | src/file_content.py:59-62 | the displayed files are exactly the requested paths that pass every check |
| Paths.RelPathUnder | src/file_content.py:29-30 | for a path strictly below the cwd, the relative path is the part after the cwd and its separator |
| Paths.RelPath | src/file_content.py:29-30 | `os.path.relpath` on normalised absolute paths; `RelPathUnder` and `RelPathSibling` state the result below the cwd and under a sibling of it |
| Paths.Join | src/file_tree.py:35 | `os.path.join` of a directory and a name, adding no separator after a directory that ends in one; `SegmentsJoin` states its components |
| Paths.SegmentsJoin | src/file_tree.py:35 | the components of a joined path are the directory's followed by the name's, also when the directory is the root `/` |
| Paths.RelPathSibling | src/file_content.py:29-30 | a path under a sibling `b` of the cwd `parent/a` is reached as `../b/...`, also when `a` is a character prefix of `b` |

## Left out

- `src/main.py` is not part of this model. It parses the arguments and defaults the cwd to `os.getcwd()`. It checks that the cwd is a directory and exits if it is not. It prints the tree; no code shown calls `process_files`. The root's display name (`'/' + basename(cwd)`) is a constructor parameter of the root `FolderNode` here.
- Standard output is modelled as a sequence of printed lines.
  - `print(f"\n./{rel_path}")` becomes the two lines `""` and `./<rel>`.
  - `print(content)` becomes one element holding the whole text, even when it contains newlines.
- The operating system calls are replaced by a finite map from path to entry.
  - Symbolic links, and the cycles they can create, are not modelled. Neither are permission errors raised by `os.listdir`. `mount` on an unlistable directory raises in the source; here every directory has a listing.
  - With a finite map and `Join` strictly lengthening a path by a non-empty entry name, `mount` always terminates.
- Read failures carry the text of `str(e)` as an opaque string stored with the file. For a missing path and for a directory, the model writes the usual errno messages. Python's `repr` quoting of the path inside them (double quotes when the path contains a single quote) is not modelled.
- `Paths.RelPath` models `os.path.relpath` for absolute paths that are already normalised (no `.` or `..` components). `os.path.abspath`'s normalisation of other inputs is not modelled. Neither is the `ValueError` that `relpath` raises for an empty path.
- A folder's `children` holds node values rather than references to child objects. Child folders are created fresh and never change after `mount` returns, so no aliasing is lost. `FileNode.mount` (src/file_tree.py:18-20) does nothing and has no counterpart.
- Characters are Unicode scalar values, compared by code point. That matches Python's `str` ordering for text without surrogates.
- In these respects the model follows the code (`src/file_content.py`, `src/file_tree.py`), not the behaviour `tests/test_cli.py` expects:
  - containment and ignoring are raw string-prefix tests, not path-segment tests (`IgnoreIsRawPrefix`, `ContainmentIsRawPrefix`);
  - the tree is not pruned by ignore paths;
  - a directory gets the same "does not exist or is not a file." warning as a missing path;
  - the ignored-path warning reads "was not displayed (it is under an ignored path).";
  - there are no line ranges and no "No content to display" warning;
  - `sorted` puts `file4.txt` before `folder1` (`ListingOrder`), not folders first.
- Other behaviour `tests/test_cli.py` expects but `src/` does not have is not modelled either: `--ignore-tree` and the split directory warning.
