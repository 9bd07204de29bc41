/** String-level path operations that the tree builder and the file checker rely on:
    Python's `str.startswith`, `os.path.join` for a single name, and `os.path.relpath`
    for normalised absolute paths. */
module Paths {

  /** `s.startswith(prefix)`: a raw character prefix test that knows nothing of path segments. */
  predicate StartsWith(s: string, prefix: string)
  {
    |prefix| <= |s| && s[..|prefix|] == prefix
  }

  /** `os.path.join(dir, name)`: an absolute `name` replaces `dir`; otherwise a separator goes
      between them unless `dir` is empty or already ends in one (as the root `/` does). */
  function Join(dir: string, name: string): string
  {
    if name != [] && name[0] == '/' then name
    else if dir == [] || dir[|dir| - 1] == '/' then dir + name
    else dir + "/" + name
  }

  /** Joining a relative name onto a directory that does not end in a separator inserts one. */
  lemma JoinPlain(dir: string, name: string)
    requires dir != [] && dir[|dir| - 1] != '/'
    requires name == [] || name[0] != '/'
    ensures Join(dir, name) == dir + "/" + name
  {
  }

  /** A name followed by more separator-free text is another, longer name. */
  lemma NameExtends(a: string, more: string)
    requires a != [] && '/' !in a && '/' !in more && more != []
    ensures NormalRel(a + more) && '/' !in a + more && a != a + more
  {
    forall i | 0 <= i < |a + more| ensures (a + more)[i] != '/' {
      if i < |a| { assert (a + more)[i] == a[i]; } else { assert (a + more)[i] == more[i - |a|]; }
    }
    assert |a + more| > |a|;
  }

  /** Joining `a + more` and then `rest` extends the join of `a` by plain text. */
  lemma JoinExtends(dir: string, a: string, more: string, rest: string)
    requires a != [] && a[0] != '/' && more != [] && more[|more| - 1] != '/'
    requires rest == [] || rest[0] != '/'
    ensures Join(Join(dir, a + more), rest) == Join(dir, a) + more + "/" + rest
  {
    var j := Join(dir, a + more);
    assert (a + more)[0] == a[0];
    if dir == [] || dir[|dir| - 1] == '/' {
      assert j == dir + a + more;
    } else {
      assert j == dir + "/" + a + more;
    }
    assert j[|j| - 1] == more[|more| - 1];
    JoinPlain(j, rest);
  }

  /** Joining a non-empty relative name strictly lengthens the path. */
  lemma JoinLonger(dir: string, name: string)
    requires name != [] && name[0] != '/'
    ensures |Join(dir, name)| > |dir|
  {
  }

  /** Length of the leading run of non-separator characters of `p`. */
  function SegLen(p: string): (n: nat)
    ensures n <= |p|
    ensures forall i :: 0 <= i < n ==> p[i] != '/'
    ensures n < |p| ==> p[n] == '/'
  {
    if p == [] || p[0] == '/' then 0 else 1 + SegLen(p[1..])
  }

  /** The non-empty components of `p`, as `[x for x in p.split('/') if x]`. */
  function Segments(p: string): (r: seq<string>)
    ensures forall k :: 0 <= k < |r| ==> r[k] != [] && '/' !in r[k]
    decreases |p|
  {
    if p == [] then []
    else if p[0] == '/' then Segments(p[1..])
    else
      var n := SegLen(p);
      [p[..n]] + Segments(p[n..])
  }

  /** `'/'.join(segs)`, which is what `os.path.join(*segs)` yields for separator-free components. */
  function JoinAll(segs: seq<string>): string
  {
    if segs == [] then ""
    else if |segs| == 1 then segs[0]
    else segs[0] + "/" + JoinAll(segs[1..])
  }

  /** Number of leading components that `a` and `b` share. */
  function CommonLen(a: seq<string>, b: seq<string>): (n: nat)
    ensures n <= |a| && n <= |b|
    ensures a[..n] == b[..n]
    ensures n < |a| && n < |b| ==> a[n] != b[n]
  {
    if a == [] || b == [] || a[0] != b[0] then 0 else 1 + CommonLen(a[1..], b[1..])
  }

  /** `os.path.relpath(path, start)` for absolute paths that are already normalised:
      one `..` for every component of `start` past the common part, then the rest of `path`. */
  function RelPath(path: string, start: string): string
  {
    var s := Segments(start);
    var p := Segments(path);
    var i := CommonLen(s, p);
    var rel := seq(|s| - i, _ => "..") + p[i..];
    if rel == [] then "." else JoinAll(rel)
  }

  /** A relative path in normal form: non-empty, no leading or trailing separator, no empty component. */
  predicate NormalRel(rest: string)
  {
    rest != [] && rest[0] != '/' && rest[|rest| - 1] != '/' &&
    forall i :: 0 <= i < |rest| - 1 && rest[i] == '/' ==> rest[i + 1] != '/'
  }

  lemma {:induction false} SegLenJoin(a: string, b: string)
    ensures SegLen(a + "/" + b) == SegLen(a)
    decreases |a|
  {
    if a != [] && a[0] != '/' {
      assert (a + "/" + b)[1..] == a[1..] + "/" + b;
      SegLenJoin(a[1..], b);
    }
  }

  lemma SegmentsSkip(p: string)
    requires p != [] && p[0] == '/'
    ensures Segments(p) == Segments(p[1..])
  {
  }

  lemma SegmentsTake(p: string)
    requires p != [] && p[0] != '/'
    ensures Segments(p) == [p[..SegLen(p)]] + Segments(p[SegLen(p)..])
  {
  }

  /** Splitting two paths glued by a separator splits at that separator. */
  lemma {:induction false} SegmentsSep(a: string, b: string)
    ensures Segments(a + "/" + b) == Segments(a) + Segments(b)
    decreases |a|
  {
    var j := a + "/" + b;
    if a == [] {
      SegmentsSkip(j);
      assert j[1..] == b;
    } else if a[0] == '/' {
      SegmentsSkip(j);
      SegmentsSkip(a);
      assert j[1..] == a[1..] + "/" + b;
      SegmentsSep(a[1..], b);
    } else {
      var n := SegLen(a);
      SegmentsSepTake(a, b);
      SegmentsSep(a[n..], b);
    }
  }

  /** A trailing separator adds no component. */
  lemma SegmentsTrailing(a: string, b: string)
    requires a != [] && a[|a| - 1] == '/'
    ensures Segments(a + b) == Segments(a) + Segments(b)
  {
    var a' := a[..|a| - 1];
    assert a == a' + "/" + [];
    assert a + b == a' + "/" + b;
    SegmentsSep(a', b);
    SegmentsSep(a', []);
  }

  lemma SegmentsSepTake(a: string, b: string)
    requires a != [] && a[0] != '/'
    ensures Segments(a + "/" + b) == [a[..SegLen(a)]] + Segments(a[SegLen(a)..] + "/" + b)
    ensures Segments(a) == [a[..SegLen(a)]] + Segments(a[SegLen(a)..])
  {
    var j := a + "/" + b;
    SegLenJoin(a, b);
    var n := SegLen(a);
    SegmentsTake(j);
    SegmentsTake(a);
    assert j[..n] == a[..n];
    assert j[n..] == a[n..] + "/" + b;
  }

  /** Splitting a joined path splits where `Join` glued its parts. */
  lemma SegmentsJoin(a: string, b: string)
    requires b == [] || b[0] != '/'
    ensures Segments(Join(a, b)) == Segments(a) + Segments(b)
  {
    if a == [] {
      assert Join(a, b) == b;
    } else if a[|a| - 1] == '/' {
      assert Join(a, b) == a + b;
      SegmentsTrailing(a, b);
    } else {
      JoinPlain(a, b);
      SegmentsSep(a, b);
    }
  }

  /** What follows the first separator of a normal relative path is normal again. */
  lemma NormalRelTail(rest: string, n: nat)
    requires NormalRel(rest) && n == SegLen(rest) && n < |rest|
    ensures NormalRel(rest[n + 1..])
  {
    var tail := rest[n + 1..];
    forall i | 0 <= i < |tail| - 1 && tail[i] == '/'
      ensures tail[i + 1] != '/'
    {
      assert rest[n + 1 + i] == '/';
    }
  }

  /** A path that starts with a component splits into that component and the components after
      the separator that ends it. */
  lemma SegmentsFirst(rest: string, n: nat)
    requires rest != [] && rest[0] != '/' && n == SegLen(rest) && n < |rest|
    ensures Segments(rest) == [rest[..n]] + Segments(rest[n + 1..])
  {
    assert rest[n..][1..] == rest[n + 1..];
  }

  /** A normal relative path is rebuilt exactly from its components. */
  lemma {:induction false} JoinAllSegments(rest: string)
    requires NormalRel(rest)
    ensures Segments(rest) != [] && JoinAll(Segments(rest)) == rest
    decreases |rest|
  {
    var n := SegLen(rest);
    if n < |rest| {
      var tail := rest[n + 1..];
      NormalRelTail(rest, n);
      JoinAllSegments(tail);
      SegmentsFirst(rest, n);
      JoinAllCons(rest[..n], Segments(tail));
      SplitAtSlash(rest, n);
    } else {
      SegmentsTake(rest);
      assert rest[..n] == rest;
      assert rest[n..] == [];
    }
  }

  lemma SplitAtSlash(s: string, n: nat)
    requires n < |s| && s[n] == '/'
    ensures s == s[..n] + "/" + s[n + 1..]
  {
    assert s == s[..n] + [s[n]] + s[n + 1..];
  }

  lemma {:induction false} CommonLenExtends(s: seq<string>, t: seq<string>)
    ensures CommonLen(s, s + t) == |s|
  {
    if s != [] {
      assert (s + t)[1..] == s[1..] + t;
      CommonLenExtends(s[1..], t);
    }
  }

  /** For a path strictly below `cwd`, `relpath` strips `cwd` and the separator. */
  lemma RelPathUnder(cwd: string, rest: string)
    requires NormalRel(rest)
    ensures RelPath(Join(cwd, rest), cwd) == rest
  {
    var s := Segments(cwd);
    var t := Segments(rest);
    SegmentsJoin(cwd, rest);
    CommonLenExtends(s, t);
    JoinAllSegments(rest);
    assert (s + t)[|s|..] == t;
    assert seq(0, _ => "..") + t == t;
  }

  /** A single separator-free name is its own only component. */
  lemma SegmentsName(name: string)
    requires name != [] && '/' !in name
    ensures Segments(name) == [name]
  {
    assert SegLen(name) == |name|;
    assert name[..|name|] == name;
    assert name[|name|..] == [];
  }

  lemma {:induction false} CommonLenDiverge(s: seq<string>, a: string, b: string, t: seq<string>)
    requires a != b
    ensures CommonLen(s + [a], s + [b] + t) == |s|
  {
    if s != [] {
      assert (s + [a])[1..] == s[1..] + [a];
      assert (s + [b] + t)[1..] == s[1..] + [b] + t;
      CommonLenDiverge(s[1..], a, b, t);
    }
  }

  lemma SiblingSegments(parent: string, a: string, b: string, rest: string)
    requires a != [] && '/' !in a
    requires b != [] && '/' !in b
    requires rest == [] || rest[0] != '/'
    ensures Segments(Join(parent, a)) == Segments(parent) + [a]
    ensures Segments(Join(Join(parent, b), rest)) == Segments(parent) + [b] + Segments(rest)
  {
    SegmentsName(a);
    SegmentsName(b);
    SegmentsJoin(parent, a);
    SegmentsJoin(parent, b);
    SegmentsJoin(Join(parent, b), rest);
  }

  lemma JoinAllCons(x: string, r: seq<string>)
    requires r != []
    ensures JoinAll([x] + r) == x + "/" + JoinAll(r)
  {
    assert ([x] + r)[1..] == r;
  }

  /** `relpath` when `start` and `path` part ways after the common components `ps`. */
  lemma RelPathDiverge(path: string, start: string, ps: seq<string>, x: string, y: string, r: seq<string>)
    requires x != y
    requires Segments(start) == ps + [x] && Segments(path) == ps + [y] + r
    ensures RelPath(path, start) == JoinAll([".."] + ([y] + r))
  {
    CommonLenDiverge(ps, x, y, r);
    assert (ps + [y] + r)[|ps|..] == [y] + r;
    assert seq(1, _ => "..") == [".."];
  }

  /** A file under a sibling directory `b` of `cwd == parent/a` is reached through `..`,
      also when `a` is a character prefix of `b`. */
  lemma RelPathSibling(parent: string, a: string, b: string, rest: string)
    requires a != [] && '/' !in a && a != b
    requires NormalRel(b) && '/' !in b
    requires NormalRel(rest)
    ensures RelPath(Join(Join(parent, b), rest), Join(parent, a)) == ".." + "/" + b + "/" + rest
  {
    var r := Segments(rest);
    SiblingSegments(parent, a, b, rest);
    RelPathDiverge(Join(Join(parent, b), rest), Join(parent, a), Segments(parent), a, b, r);
    JoinAllSegments(rest);
    JoinAllCons(b, r);
    JoinAllCons("..", [b] + r);
  }
}
