/** Directory entry names as the tree builder treats them: hidden names are dropped, and the
    rest are put in Python's `sorted` order, which for strings is code-point order. */
module Names {

  /** `name.startswith('.')`. */
  predicate Hidden(name: string)
  {
    |name| > 0 && name[0] == '.'
  }

  /** `[item for item in listing if not item.startswith('.')]`. */
  function Visible(listing: seq<string>): seq<string>
  {
    if listing == [] then []
    else if Hidden(listing[0]) then Visible(listing[1..])
    else [listing[0]] + Visible(listing[1..])
  }

  /** The filter keeps exactly the names that do not start with a dot, and never adds a copy. */
  lemma {:induction false} VisibleFilters(listing: seq<string>)
    ensures forall x :: x in Visible(listing) <==> x in listing && !Hidden(x)
    ensures forall x :: multiset(Visible(listing))[x] <= multiset(listing)[x]
  {
    if listing != [] {
      VisibleFilters(listing[1..]);
      assert listing == [listing[0]] + listing[1..];
    }
  }

  /** `a <= b` on Python strings: lexicographic comparison of code points. */
  predicate Below(a: string, b: string)
  {
    a == [] || (b != [] && (a[0] < b[0] || (a[0] == b[0] && Below(a[1..], b[1..]))))
  }

  lemma {:induction false} BelowTotal(a: string, b: string)
    ensures Below(a, b) || Below(b, a)
  {
    if a != [] && b != [] && a[0] == b[0] {
      BelowTotal(a[1..], b[1..]);
    }
  }

  lemma {:induction false} BelowReflexive(a: string)
    ensures Below(a, a)
  {
    if a != [] {
      BelowReflexive(a[1..]);
    }
  }

  lemma {:induction false} BelowTransitive(a: string, b: string, c: string)
    requires Below(a, b) && Below(b, c)
    ensures Below(a, c)
  {
    if a != [] && a[0] == b[0] && b[0] == c[0] {
      BelowTransitive(a[1..], b[1..], c[1..]);
    }
  }

  lemma {:induction false} BelowAntisymmetric(a: string, b: string)
    requires Below(a, b) && Below(b, a)
    ensures a == b
  {
    if a != [] {
      BelowAntisymmetric(a[1..], b[1..]);
      assert a == [a[0]] + a[1..] && b == [b[0]] + b[1..];
    }
  }

  predicate Ascending(s: seq<string>)
  {
    forall i, j :: 0 <= i < j < |s| ==> Below(s[i], s[j])
  }

  predicate Distinct(s: seq<string>)
  {
    forall i, j :: 0 <= i < j < |s| ==> s[i] != s[j]
  }

  /** Puts `x` before the first element it is below. */
  function Insert(x: string, s: seq<string>): seq<string>
  {
    if s == [] then [x]
    else if Below(x, s[0]) then [x] + s
    else [s[0]] + Insert(x, s[1..])
  }

  /** Python's `sorted` on a list of strings, written as an insertion sort; by
      `SortedIsUnique` every ascending permutation is this one. */
  function Sort(s: seq<string>): seq<string>
  {
    if s == [] then [] else Insert(s[0], Sort(s[1..]))
  }

  /** An element below everything in an ascending sequence can go in front of it. */
  lemma ConsAscending(a: string, t: seq<string>)
    requires Ascending(t)
    requires forall y :: y in t ==> Below(a, y)
    ensures Ascending([a] + t)
  {
    forall i, j | 0 <= i < j < |[a] + t| ensures Below(([a] + t)[i], ([a] + t)[j]) {
      if i > 0 {
        assert ([a] + t)[i] == t[i - 1] && ([a] + t)[j] == t[j - 1];
      } else {
        assert ([a] + t)[j] == t[j - 1] && t[j - 1] in t;
      }
    }
  }

  /** What goes behind the head of an ascending sequence is never below the head. */
  lemma HeadBelowRest(h: string, x: string, rest: seq<string>, t: seq<string>)
    requires Ascending([h] + rest) && !Below(x, h)
    requires multiset(t) == multiset(rest) + multiset{x}
    ensures forall y :: y in t ==> Below(h, y)
  {
    forall y | y in t ensures Below(h, y) {
      assert y in multiset(rest) + multiset{x};
      if y == x {
        BelowTotal(x, h);
      } else {
        assert y in rest;
        var j :| 0 <= j < |rest| && rest[j] == y;
        assert ([h] + rest)[0] == h && ([h] + rest)[j + 1] == y;
        assert Below(([h] + rest)[0], ([h] + rest)[j + 1]);
      }
    }
  }

  /** Inserting into an ascending sequence keeps it ascending and adds exactly `x`. */
  lemma {:induction false} InsertSorted(x: string, s: seq<string>)
    requires Ascending(s)
    ensures Ascending(Insert(x, s))
    ensures multiset(Insert(x, s)) == multiset(s) + multiset{x}
  {
    if s == [] {
    } else if Below(x, s[0]) {
      forall y | y in s ensures Below(x, y) {
        HeadIsLeast(s, y);
        BelowTransitive(x, s[0], y);
      }
      ConsAscending(x, s);
    } else {
      var t := Insert(x, s[1..]);
      assert s == [s[0]] + s[1..];
      InsertSorted(x, s[1..]);
      HeadBelowRest(s[0], x, s[1..], t);
      ConsAscending(s[0], t);
    }
  }

  /** `sorted` returns an ascending permutation of its argument. */
  lemma {:induction false} SortSorted(s: seq<string>)
    ensures Ascending(Sort(s))
    ensures multiset(Sort(s)) == multiset(s)
  {
    if s != [] {
      SortSorted(s[1..]);
      InsertSorted(s[0], Sort(s[1..]));
      assert s == [s[0]] + s[1..];
    }
  }

  /** The first element of an ascending sequence is below every element. */
  lemma HeadIsLeast(s: seq<string>, x: string)
    requires Ascending(s) && x in s
    ensures Below(s[0], x)
  {
    var i :| 0 <= i < |s| && s[i] == x;
    if i == 0 { BelowReflexive(x); }
  }

  lemma TailMultiset(s: seq<string>)
    requires s != []
    ensures multiset(s[1..]) == multiset(s) - multiset{s[0]}
  {
    assert s == [s[0]] + s[1..];
  }

  /** The order `sorted` produces is fixed by the names alone. */
  lemma {:induction false} SortedIsUnique(a: seq<string>, b: seq<string>)
    requires Ascending(a) && Ascending(b)
    requires multiset(a) == multiset(b)
    ensures a == b
  {
    if a != [] {
      assert a[0] in multiset(b);
      HeadIsLeast(b, a[0]);
      assert b[0] in multiset(a);
      HeadIsLeast(a, b[0]);
      BelowAntisymmetric(a[0], b[0]);
      TailMultiset(a);
      TailMultiset(b);
      SortedIsUnique(a[1..], b[1..]);
      assert a == [a[0]] + a[1..] && b == [b[0]] + b[1..];
    }
  }

  /** No element occurs twice exactly when every multiplicity is at most one. */
  lemma {:induction false} DistinctCounts(s: seq<string>)
    ensures Distinct(s) <==> forall x :: multiset(s)[x] <= 1
  {
    if s != [] {
      DistinctCounts(s[1..]);
      assert s == [s[0]] + s[1..];
      if Distinct(s) {
        assert s[0] !in s[1..];
      } else {
        var i, j :| 0 <= i < j < |s| && s[i] == s[j];
        assert multiset(s) == multiset{s[0]} + multiset(s[1..]);
        if i == 0 {
          assert s[1..][j - 1] == s[0];
          assert multiset(s)[s[0]] >= 2;
        } else {
          assert s[1..][i - 1] == s[1..][j - 1];
          assert !Distinct(s[1..]);
          var x :| multiset(s[1..])[x] > 1;
          assert multiset(s)[x] > 1;
        }
      }
    }
  }

  /** Sorting a listing without repeated names gives a strictly ascending sequence of the
      same names: each visible entry appears exactly once. */
  lemma SortDistinct(s: seq<string>)
    requires Distinct(s)
    ensures Distinct(Sort(s))
    ensures forall i, j :: 0 <= i < j < |Sort(s)| ==> Below(Sort(s)[i], Sort(s)[j]) && Sort(s)[i] != Sort(s)[j]
  {
    SortSorted(s);
    DistinctCounts(s);
    DistinctCounts(Sort(s));
  }

  lemma VisibleDistinct(listing: seq<string>)
    requires Distinct(listing)
    ensures Distinct(Visible(listing))
  {
    VisibleFilters(listing);
    DistinctCounts(listing);
    DistinctCounts(Visible(listing));
  }

  /** Code-point order puts capitals first and compares names character by character, so
      whatever order the directory lists them in, `sorted` gives `README.md`, `file4.txt`,
      `folder1`, `folder2`: a file name can sort before folder names. */
  lemma ListingOrder(listing: seq<string>)
    requires multiset(listing) == multiset{"README.md", "file4.txt", "folder1", "folder2"}
    ensures Sort(listing) == ["README.md", "file4.txt", "folder1", "folder2"]
  {
    var s := ["README.md", "file4.txt", "folder1", "folder2"];
    assert Below(s[0], s[1]) && Below(s[0], s[2]) && Below(s[0], s[3]);
    assert Below(s[1], s[2]) && Below(s[1], s[3]);
    assert Below(s[2], s[3]);
    assert Ascending(s);
    assert multiset(s) == multiset{"README.md", "file4.txt", "folder1", "folder2"};
    SortSorted(listing);
    SortedIsUnique(Sort(listing), s);
  }
}
