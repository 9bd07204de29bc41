/** Which requested files are shown and how: `FileChecker` decides, `FilePrinter` formats,
    `FileContentManager` runs both over the requested paths in order. */
module FileContent {
  import opened Paths
  import opened FileSystem

  datatype Option<T> = None | Some(value: T)

  /** The outcome of the checks of `is_displayable`, in the order they are made. */
  datatype Verdict = NotUnderCwd | NotAFile | UnderIgnoredPath | Displayable

  /** Some ignore path is a raw string prefix of `path`. */
  predicate Ignored(path: string, ignorePaths: seq<string>)
  {
    exists k :: 0 <= k < |ignorePaths| && StartsWith(path, ignorePaths[k])
  }

  /** The first failing check, or `Displayable` when all three pass. */
  function Judge(fs: Fs, path: string, cwd: string, ignorePaths: seq<string>): Verdict
  {
    if !StartsWith(path, cwd) then NotUnderCwd
    else if !IsFile(fs, path) then NotAFile
    else if Ignored(path, ignorePaths) then UnderIgnoredPath
    else Displayable
  }

  /** What a warning says after the quoted path: the check that failed. */
  function Reason(v: Verdict): string
    requires v != Displayable
  {
    match v
    case NotUnderCwd => "is not under the specified cwd."
    case NotAFile => "does not exist or is not a file."
    case UnderIgnoredPath => "was not displayed (it is under an ignored path)."
  }

  /** The warning recorded for a failed check; `rel` is the path relative to the cwd. */
  function WarningText(v: Verdict, rel: string): string
    requires v != Displayable
  {
    "Warning: '" + rel + "' " + Reason(v)
  }

  class FileChecker {
    const filePath: string
    const cwdAbs: string
    const ignorePathsAbs: seq<string>
    var warning: Option<string>

    constructor (filePath: string, cwdAbs: string, ignorePathsAbs: seq<string>)
      ensures this.filePath == filePath && this.cwdAbs == cwdAbs && this.ignorePathsAbs == ignorePathsAbs
      ensures warning == None
    {
      this.filePath := filePath;
      this.cwdAbs := cwdAbs;
      this.ignorePathsAbs := ignorePathsAbs;
      warning := None;
    }

    /** `get_relative_path`. */
    function RelativePath(): string
    {
      RelPath(filePath, cwdAbs)
    }

    /** Runs the checks in order and stops at the first that fails, recording its warning;
        the warning is left alone when every check passes. */
    method IsDisplayable(fs: Fs) returns (ok: bool)
      modifies this
      ensures ok <==> Judge(fs, filePath, cwdAbs, ignorePathsAbs) == Displayable
      ensures ok ==> warning == old(warning)
      ensures !ok ==> warning == Some(WarningText(Judge(fs, filePath, cwdAbs, ignorePathsAbs), RelativePath()))
    {
      if !StartsWith(filePath, cwdAbs) {
        warning := Some(WarningText(NotUnderCwd, RelativePath()));
        return false;
      }
      if !IsFile(fs, filePath) {
        warning := Some(WarningText(NotAFile, RelativePath()));
        return false;
      }
      var i := 0;
      while i < |ignorePathsAbs|
        invariant 0 <= i <= |ignorePathsAbs|
        invariant forall k :: 0 <= k < i ==> !StartsWith(filePath, ignorePathsAbs[k])
        invariant warning == old(warning)
      {
        if StartsWith(filePath, ignorePathsAbs[i]) {
          warning := Some(WarningText(UnderIgnoredPath, RelativePath()));
          return false;
        }
        i := i + 1;
      }
      return true;
    }

    function GetWarning(): Option<string>
      reads this
    {
      warning
    }
  }

  /** The fence line around a printed file. */
  const Fence: string := "```"

  /** What stands between the fences: the file's text, or the read error. */
  function Body(contents: Contents, rel: string): string
  {
    match contents
    case Text(text) => text
    case Unreadable(reason) => "Error reading file '" + rel + "': " + reason
  }

  /** `FilePrinter.print_content`, one element per printed line: a blank line, the header
      `./<rel>`, a fence, the body, a fence. */
  function PrintContent(fs: Fs, filePath: string, cwdAbs: string): seq<string>
  {
    var rel := RelPath(filePath, cwdAbs);
    ["", "./" + rel, Fence, Body(Read(fs, filePath), rel), Fence]
  }

  /** What `process_files` prints for one path. A fresh checker judges each path, so this
      depends on that path alone. */
  function Outcome(fs: Fs, path: string, cwd: string, ignorePaths: seq<string>): seq<string>
  {
    var v := Judge(fs, path, cwd, ignorePaths);
    if v == Displayable then PrintContent(fs, path, cwd) else [WarningText(v, RelPath(path, cwd))]
  }

  /** Everything `process_files` prints for `paths`. */
  function Report(fs: Fs, paths: seq<string>, cwd: string, ignorePaths: seq<string>): seq<string>
  {
    ConcatMap(p => Outcome(fs, p, cwd, ignorePaths), paths)
  }

  /** `f` applied to each element in turn, the results joined in order. */
  function ConcatMap<T>(f: T -> seq<string>, xs: seq<T>): seq<string>
  {
    if xs == [] then [] else ConcatMap(f, xs[..|xs| - 1]) + f(xs[|xs| - 1])
  }

  lemma {:induction false} ConcatMapAppend<T>(f: T -> seq<string>, xs: seq<T>, ys: seq<T>)
    ensures ConcatMap(f, xs + ys) == ConcatMap(f, xs) + ConcatMap(f, ys)
    decreases |ys|
  {
    if ys == [] {
      assert xs + ys == xs;
    } else {
      var ys' := ys[..|ys| - 1];
      assert (xs + ys)[..|xs + ys| - 1] == xs + ys';
      assert (xs + ys)[|xs + ys| - 1] == ys[|ys| - 1];
      ConcatMapAppend(f, xs, ys');
    }
  }

  /** The files `process_files` adds to `displayed_files` for `paths`. */
  function Shown(fs: Fs, paths: seq<string>, cwd: string, ignorePaths: seq<string>): set<string>
  {
    if paths == [] then {}
    else
      Shown(fs, paths[..|paths| - 1], cwd, ignorePaths) + Mark(fs, paths[|paths| - 1], cwd, ignorePaths)
  }

  /** What handling `path` adds to the displayed files: the path itself when it passes every check. */
  function Mark(fs: Fs, path: string, cwd: string, ignorePaths: seq<string>): set<string>
  {
    if Judge(fs, path, cwd, ignorePaths) == Displayable then {path} else {}
  }

  class FileContentManager {
    const specifiedFilesAbs: seq<string>
    const cwdAbs: string
    const ignorePathsAbs: seq<string>
    var displayedFiles: set<string>

    constructor (specifiedFilesAbs: seq<string>, cwdAbs: string, ignorePathsAbs: seq<string>)
      ensures this.specifiedFilesAbs == specifiedFilesAbs && this.cwdAbs == cwdAbs
      ensures this.ignorePathsAbs == ignorePathsAbs && displayedFiles == {}
    {
      this.specifiedFilesAbs := specifiedFilesAbs;
      this.cwdAbs := cwdAbs;
      this.ignorePathsAbs := ignorePathsAbs;
      displayedFiles := {};
    }

    /** Judges every requested path in order with a fresh checker, prints the file or the
        warning, and records the files it printed. */
    method ProcessFiles(fs: Fs) returns (out: seq<string>)
      modifies this
      ensures out == Report(fs, specifiedFilesAbs, cwdAbs, ignorePathsAbs)
      ensures displayedFiles == old(displayedFiles) + Shown(fs, specifiedFilesAbs, cwdAbs, ignorePathsAbs)
    {
      out := [];
      ghost var before := displayedFiles;
      var i := 0;
      while i < |specifiedFilesAbs|
        invariant 0 <= i <= |specifiedFilesAbs|
        invariant out == Report(fs, specifiedFilesAbs[..i], cwdAbs, ignorePathsAbs)
        invariant displayedFiles == before + Shown(fs, specifiedFilesAbs[..i], cwdAbs, ignorePathsAbs)
      {
        ghost var mid := displayedFiles;
        var printed := ProcessFile(fs, specifiedFilesAbs[i]);
        ProcessStep(fs, specifiedFilesAbs, cwdAbs, ignorePathsAbs, i, out, printed, before, mid, displayedFiles);
        out := out + printed;
        i := i + 1;
      }
      assert specifiedFilesAbs[..i] == specifiedFilesAbs;
    }

    /** The body of the loop in `process_files`: a fresh checker judges `filePath`; a displayable
        file is printed and recorded, any other path prints the checker's warning. */
    method ProcessFile(fs: Fs, filePath: string) returns (printed: seq<string>)
      modifies this
      ensures printed == Outcome(fs, filePath, cwdAbs, ignorePathsAbs)
      ensures displayedFiles == old(displayedFiles) + Mark(fs, filePath, cwdAbs, ignorePathsAbs)
    {
      var checker := new FileChecker(filePath, cwdAbs, ignorePathsAbs);
      var ok := checker.IsDisplayable(fs);
      if ok {
        printed := PrintContent(fs, filePath, cwdAbs);
        displayedFiles := displayedFiles + {filePath};
      } else {
        printed := [checker.GetWarning().value];
      }
    }
  }

  /** One turn of the loop of `process_files` extends the printed output and the displayed files
      by what the next request contributes. */
  lemma ProcessStep(fs: Fs, paths: seq<string>, cwd: string, ignorePaths: seq<string>, i: nat,
                    out: seq<string>, printed: seq<string>, before: set<string>, mid: set<string>, after: set<string>)
    requires i < |paths|
    requires out == Report(fs, paths[..i], cwd, ignorePaths)
    requires printed == Outcome(fs, paths[i], cwd, ignorePaths)
    requires mid == before + Shown(fs, paths[..i], cwd, ignorePaths)
    requires after == mid + Mark(fs, paths[i], cwd, ignorePaths)
    ensures out + printed == Report(fs, paths[..i + 1], cwd, ignorePaths)
    ensures after == before + Shown(fs, paths[..i + 1], cwd, ignorePaths)
  {
    ReportSnoc(fs, paths, cwd, ignorePaths, i);
  }

  lemma ReportSnoc(fs: Fs, paths: seq<string>, cwd: string, ignorePaths: seq<string>, i: nat)
    requires i < |paths|
    ensures Report(fs, paths[..i + 1], cwd, ignorePaths)
         == Report(fs, paths[..i], cwd, ignorePaths) + Outcome(fs, paths[i], cwd, ignorePaths)
    ensures Shown(fs, paths[..i + 1], cwd, ignorePaths)
         == Shown(fs, paths[..i], cwd, ignorePaths) + Mark(fs, paths[i], cwd, ignorePaths)
  {
    var q := paths[..i + 1];
    assert q[..|q| - 1] == paths[..i] && q[|q| - 1] == paths[i];
  }

  // ---------------------------------------------------------------------------------------
  // Checking

  /** The checks run in a fixed order: containment decides before anything else, existence
      before the ignore list, and a path is displayable exactly when all three pass. */
  lemma JudgeOrder(fs: Fs, path: string, cwd: string, ignorePaths: seq<string>)
    ensures !StartsWith(path, cwd) ==> Judge(fs, path, cwd, ignorePaths) == NotUnderCwd
    ensures StartsWith(path, cwd) && !IsFile(fs, path) ==> Judge(fs, path, cwd, ignorePaths) == NotAFile
    ensures Judge(fs, path, cwd, ignorePaths) == Displayable <==>
      StartsWith(path, cwd) && IsFile(fs, path) &&
      forall k :: 0 <= k < |ignorePaths| ==> !StartsWith(path, ignorePaths[k])
  {
  }

  /** With no ignore paths, every existing file under the cwd is displayable. */
  lemma NoIgnorePaths(fs: Fs, path: string, cwd: string)
    requires StartsWith(path, cwd) && IsFile(fs, path)
    ensures Judge(fs, path, cwd, []) == Displayable
  {
  }

  /** Ignoring is a raw string prefix test: an ignore path also rejects a sibling whose name
      merely begins with the ignored name (`/r/folder1` rejects `/r/folder10/x`). */
  lemma IgnoreIsRawPrefix(fs: Fs, cwd: string, ignored: string, more: string, ignorePaths: seq<string>)
    requires ignored in ignorePaths
    requires StartsWith(ignored + more, cwd) && IsFile(fs, ignored + more)
    ensures Judge(fs, ignored + more, cwd, ignorePaths) == UnderIgnoredPath
  {
    var k :| 0 <= k < |ignorePaths| && ignorePaths[k] == ignored;
    assert (ignored + more)[..|ignored|] == ignored;
  }

  /** Containment is a raw string prefix test too: with cwd `parent/a`, an existing file under
      `parent/ab` is accepted, and it is labelled with a path that climbs out of the cwd. */
  lemma ContainmentIsRawPrefix(fs: Fs, parent: string, a: string, more: string, rest: string)
    requires a != [] && '/' !in a && '/' !in more && more != []
    requires NormalRel(rest)
    requires IsFile(fs, Join(Join(parent, a + more), rest))
    ensures Judge(fs, Join(Join(parent, a + more), rest), Join(parent, a), []) == Displayable
    ensures PrintContent(fs, Join(Join(parent, a + more), rest), Join(parent, a))[1]
         == "./../" + a + more + "/" + rest
  {
    var path := Join(Join(parent, a + more), rest);
    var cwd := Join(parent, a);
    JoinExtends(parent, a, more, rest);
    assert path[..|cwd|] == cwd;
    NameExtends(a, more);
    RelPathSibling(parent, a, a + more, rest);
  }

  /** Each failed check has its own warning: the text names the check that failed. */
  lemma WarningsDiffer(v: Verdict, w: Verdict, rel: string)
    requires v != Displayable && w != Displayable
    requires WarningText(v, rel) == WarningText(w, rel)
    ensures v == w
  {
    var head := "Warning: '" + rel + "' ";
    assert WarningText(v, rel)[|head|] == Reason(v)[0];
    assert WarningText(w, rel)[|head|] == Reason(w)[0];
  }

  // ---------------------------------------------------------------------------------------
  // Printing

  /** A printed file under the cwd: a blank line, `./` and its path below the cwd, a fence, the
      text (or the read error naming the same path), a fence. */
  lemma PrintedBlock(fs: Fs, cwd: string, rest: string)
    requires NormalRel(rest)
    ensures var lines := PrintContent(fs, Join(cwd, rest), cwd);
      |lines| == 5 && lines[0] == "" && lines[1] == "./" + rest &&
      lines[2] == Fence && lines[4] == Fence &&
      (Read(fs, Join(cwd, rest)).Text? ==> lines[3] == Read(fs, Join(cwd, rest)).text) &&
      (Read(fs, Join(cwd, rest)).Unreadable? ==>
         lines[3] == "Error reading file '" + rest + "': " + Read(fs, Join(cwd, rest)).reason)
  {
    RelPathUnder(cwd, rest);
  }

  /** A refused request below the cwd prints one warning that names the path relative to the cwd. */
  lemma WarnedBelowCwd(fs: Fs, cwd: string, rest: string, ignorePaths: seq<string>)
    requires NormalRel(rest) && Judge(fs, Join(cwd, rest), cwd, ignorePaths) != Displayable
    ensures Outcome(fs, Join(cwd, rest), cwd, ignorePaths)
         == [WarningText(Judge(fs, Join(cwd, rest), cwd, ignorePaths), rest)]
  {
    RelPathUnder(cwd, rest);
  }

  lemma BelowCwd(cwd: string, rest: string)
    requires rest == [] || rest[0] != '/'
    ensures StartsWith(Join(cwd, rest), cwd)
  {
    assert Join(cwd, rest)[..|cwd|] == cwd;
  }

  /** A requested path below the cwd that is not a file gets the existence warning, naming the
      path as it was given relative to the cwd. */
  lemma MissingFileWarning(fs: Fs, cwd: string, rest: string, ignorePaths: seq<string>)
    requires NormalRel(rest) && !IsFile(fs, Join(cwd, rest))
    ensures Outcome(fs, Join(cwd, rest), cwd, ignorePaths) == [WarningText(NotAFile, rest)]
  {
    BelowCwd(cwd, rest);
    WarnedBelowCwd(fs, cwd, rest, ignorePaths);
  }

  /** A file named explicitly is still refused when it lies under an ignored folder. */
  lemma IgnoredFileWarning(fs: Fs, cwd: string, folder: string, rest: string, ignorePaths: seq<string>)
    requires NormalRel(folder) && NormalRel(rest)
    requires Join(cwd, folder) in ignorePaths
    requires IsFile(fs, Join(Join(cwd, folder), rest))
    ensures Outcome(fs, Join(Join(cwd, folder), rest), cwd, ignorePaths)
         == [WarningText(UnderIgnoredPath, folder + "/" + rest)]
  {
    var rel := folder + "/" + rest;
    assert Join(Join(cwd, folder), rest) == Join(cwd, rel);
    assert Join(cwd, folder) + ("/" + rest) == Join(cwd, rel);
    NormalRelJoin(folder, rest);
    BelowCwd(cwd, rel);
    IgnoreIsRawPrefix(fs, cwd, Join(cwd, folder), "/" + rest, ignorePaths);
    WarnedBelowCwd(fs, cwd, rel, ignorePaths);
  }

  lemma NormalRelJoin(a: string, b: string)
    requires NormalRel(a) && NormalRel(b)
    ensures NormalRel(a + "/" + b)
  {
    var j := a + "/" + b;
    forall i | 0 <= i < |j| - 1 && j[i] == '/'
      ensures j[i + 1] != '/'
    {
      if i < |a| - 1 { assert j[i] == a[i] && j[i + 1] == a[i + 1]; }
      else if i == |a| { assert j[i + 1] == b[0]; }
      else if i > |a| { assert j[i] == b[i - |a| - 1] && j[i + 1] == b[i - |a|]; }
    }
  }

  // ---------------------------------------------------------------------------------------
  // Processing a list of requests

  /** Every request is printed on its own: the report for two lists of requests is the report
      for the first followed by the report for the second. */
  lemma ReportAppend(fs: Fs, a: seq<string>, b: seq<string>, cwd: string, ignorePaths: seq<string>)
    ensures Report(fs, a + b, cwd, ignorePaths) == Report(fs, a, cwd, ignorePaths) + Report(fs, b, cwd, ignorePaths)
  {
    ConcatMapAppend(p => Outcome(fs, p, cwd, ignorePaths), a, b);
  }

  /** Exactly one block or warning per request, in request order: what request `i` prints sits
      between what the requests before it and the requests after it print. */
  lemma ReportAt(fs: Fs, paths: seq<string>, cwd: string, ignorePaths: seq<string>, i: nat)
    requires i < |paths|
    ensures Report(fs, paths, cwd, ignorePaths)
         == Report(fs, paths[..i], cwd, ignorePaths) + Outcome(fs, paths[i], cwd, ignorePaths) +
            Report(fs, paths[i + 1..], cwd, ignorePaths)
  {
    assert paths == paths[..i] + [paths[i]] + paths[i + 1..];
    ReportAppend(fs, paths[..i] + [paths[i]], paths[i + 1..], cwd, ignorePaths);
    ReportAppend(fs, paths[..i], [paths[i]], cwd, ignorePaths);
    assert [paths[i]][..0] == [];
  }

  /** What one request prints: a five-line block exactly when it is displayable, one warning
      line otherwise. */
  lemma OutcomeShape(fs: Fs, path: string, cwd: string, ignorePaths: seq<string>)
    ensures var out := Outcome(fs, path, cwd, ignorePaths);
      (Judge(fs, path, cwd, ignorePaths) == Displayable <==> |out| == 5) &&
      (Judge(fs, path, cwd, ignorePaths) != Displayable <==> |out| == 1) &&
      (|out| == 1 ==> StartsWith(out[0], "Warning: '" + RelPath(path, cwd) + "' ")) &&
      (|out| == 5 ==> out[0] == "" && out[1] == "./" + RelPath(path, cwd) && out[2] == Fence &&
                      out[3] == Body(Read(fs, path), RelPath(path, cwd)) && out[4] == Fence)
  {
    var v := Judge(fs, path, cwd, ignorePaths);
    if v != Displayable {
      var rel := RelPath(path, cwd);
      var head := "Warning: '" + rel + "' ";
      assert WarningText(v, rel)[..|head|] == head;
    }
  }

  /** The displayed files are exactly the requested paths that pass every check. */
  lemma {:induction false} ShownExactly(fs: Fs, paths: seq<string>, cwd: string, ignorePaths: seq<string>)
    ensures forall p :: p in Shown(fs, paths, cwd, ignorePaths) <==>
      p in paths && Judge(fs, p, cwd, ignorePaths) == Displayable
    decreases |paths|
  {
    if paths != [] {
      var init := paths[..|paths| - 1];
      ShownExactly(fs, init, cwd, ignorePaths);
      assert paths == init + [paths[|paths| - 1]];
    }
  }
}
