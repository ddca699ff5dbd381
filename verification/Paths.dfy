/** Slash-separated paths as strings, with the operations of Go's `path` and `strings` packages that the
    planner uses.  They are stated for clean paths, the only ones the drivers and the configuration produce. */
module Paths {

  predicate IsLast(s: string, c: char, i: int) {
    -1 <= i < |s| && (i >= 0 ==> s[i] == c) && forall j :: i < j < |s| ==> s[j] != c
  }

  lemma {:induction false} LastExists(s: string, c: char)
    ensures exists i :: IsLast(s, c, i)
    decreases |s|
  {
    var n := |s| - 1;
    if s == [] {
      assert IsLast(s, c, -1);
    } else if s[n] == c {
      assert IsLast(s, c, n);
    } else {
      LastExists(s[..n], c);
      var j :| IsLast(s[..n], c, j);
      assert forall m :: j < m < n ==> s[m] == s[..n][m];
      assert IsLast(s, c, j);
    }
  }

  /** Index of the last occurrence of `c` in `s`, or -1. */
  function LastIndex(s: string, c: char): (i: int)
    ensures IsLast(s, c, i)
  {
    LastExists(s, c);
    var i :| IsLast(s, c, i);
    i
  }

  /** path.Dir */
  function Dir(p: string): string {
    var i := LastIndex(p, '/');
    if i < 0 then "." else if i == 0 then "/" else p[..i]
  }

  /** path.Base */
  function Base(p: string): string {
    var i := LastIndex(p, '/');
    if i < 0 then p else p[i + 1..]
  }

  /** path.Ext: from the last dot of the last component on. */
  function Ext(p: string): string {
    var f := Base(p);
    var i := LastIndex(f, '.');
    if i < 0 then "" else if i == 0 then f else f[i..]
  }

  /** path.Join of two elements: empty elements are ignored, and a slash that is already there is not doubled. */
  function Join(a: string, b: string): string {
    if a == "" then b
    else if b == "" then a
    else if a[|a| - 1] == '/' then a + b
    else a + "/" + b
  }

  /** strings.TrimPrefix */
  function TrimPrefix(p: string, pre: string): string {
    if pre <= p then p[|pre|..] else p
  }

  /** strings.TrimSuffix */
  function TrimSuffix(p: string, suf: string): string {
    if p == suf then "" else if 0 < |suf| < |p| && p[|p| - |suf|..] == suf then p[..|p| - |suf|] else p
  }

  /** strings.Split at every slash. */
  function Split(p: string): (parts: seq<string>)
    ensures |parts| >= 1
    decreases |p|
  {
    var i := LastIndex(p, '/');
    if i < 0 then [p] else Split(p[..i]) + [p[i + 1..]]
  }

  /** `p` is a strict descendant of `d`. */
  predicate Below(p: string, d: string) {
    |d| < |p| && p[..|d|] == d && p[|d|] == '/'
  }

  predicate AtOrBelow(p: string, d: string) {
    p == d || Below(p, d)
  }

  /** The part of `p` after `d` and the slash. */
  function Rel(p: string, d: string): string
    requires Below(p, d)
  {
    p[|d| + 1..]
  }

  /** `d` and `r` with a slash between: where the relative path `r` lives under `d`. */
  function At(d: string, r: string): (p: string)
    ensures Below(p, d) && Rel(p, d) == r
  {
    d + "/" + r
  }

  predicate CleanPart(c: string) {
    c != "" && c != "." && c != ".." && (forall i :: 0 <= i < |c| ==> c[i] != '/')
  }

  /** A clean relative path: non-empty components, none of them a dot or two dots. */
  predicate RelClean(r: string) {
    forall c :: c in Split(r) ==> CleanPart(c)
  }

  /** A usable root: not empty and not ending in a slash. */
  predicate RootPath(d: string) {
    d != "" && d[|d| - 1] != '/'
  }

  /** The page-index files that may accompany a book (sync/prepare.go, getSupplementalArtifactsPaths). */
  function Supplements(full: string): (paths: seq<string>)
    ensures |paths| == 2
  {
    var f := Base(full);
    var dir := TrimSuffix(full[..|full| - |f|], "/");
    var base := TrimSuffix(f, Ext(f));
    [Join(dir, base + ".apnx"), Join(Join(dir, base + ".sdr"), base + ".apnx")]
  }

  // ---------------------------------------------------------------------------------- order of paths

  lemma AtRel(p: string, d: string)
    requires Below(p, d)
    ensures At(d, Rel(p, d)) == p
  {
    assert p == p[..|d|] + [p[|d|]] + p[|d| + 1..];
  }

  lemma BelowTrans(p: string, q: string, r: string)
    requires Below(p, q) && Below(q, r)
    ensures Below(p, r)
  {
    assert p[..|q|][..|r|] == p[..|r|];
    assert p[|r|] == p[..|q|][|r|];
  }

  lemma BelowAsym(p: string, q: string)
    requires Below(p, q)
    ensures !Below(q, p) && p != q
  {
  }

  /** The parent of a descendant of `d` is `d` or a descendant of `d`. */
  lemma DirOfBelow(p: string, d: string)
    requires Below(p, d) && d != ""
    ensures AtOrBelow(Dir(p), d) && Below(p, Dir(p)) && |Dir(p)| < |p|
  {
    var i := LastIndex(p, '/');
    assert i >= |d|;
    assert p[..i][..|d|] == p[..|d|];
  }

  /** Two directories above the same path are comparable. */
  lemma Comparable(p: string, d: string, e: string)
    requires Below(p, d) && Below(p, e)
    ensures d == e || Below(d, e) || Below(e, d)
  {
    if |d| == |e| {
    } else if |e| < |d| {
      assert d[..|e|] == p[..|d|][..|e|] == p[..|e|] == e;
      assert d[|e|] == p[..|d|][|e|] == '/';
    } else {
      assert e[..|d|] == p[..|e|][..|d|] == p[..|d|] == d;
      assert e[|d|] == p[..|e|][|d|] == '/';
    }
  }

  /** Every directory above `p` is the parent of `p` or above that parent. */
  lemma AncestorOfDir(p: string, e: string)
    requires Below(p, e) && e != ""
    ensures e == Dir(p) || Below(Dir(p), e)
  {
    DirOfBelow(p, e);
  }

  /** Moving a path from one root to another keeps the order below the roots. */
  lemma RerootBelow(d: string, r: string, q: string)
    ensures Below(At(d, r), At(d, q)) <==> Below(r, q)
  {
    var a, b := At(d, r), At(d, q);
    assert a == (d + "/") + r && b == (d + "/") + q;
    if |q| < |r| {
      assert a[..|b|] == (d + "/") + r[..|q|];
      assert a[|b|] == r[|q|];
      if a[..|b|] == b {
        assert r[..|q|] == a[..|b|][|d| + 1..] == q;
      }
    }
  }

  lemma AtAssoc(d: string, r: string, c: string)
    ensures At(At(d, r), c) == At(d, At(r, c))
  {
    assert d + "/" + r + "/" + c == d + "/" + (r + "/" + c);
  }

  lemma AtInjective(d: string, r: string, q: string)
    requires At(d, r) == At(d, q)
    ensures r == q
  {
    assert Rel(At(d, r), d) == r;
  }

  // ---------------------------------------------------------------------------------- Split and Dir

  /** `head` followed by the components in `parts`. */
  function JoinAll(head: string, parts: seq<string>): string
    decreases |parts|
  {
    if parts == [] then head else Join(JoinAll(head, parts[..|parts| - 1]), parts[|parts| - 1])
  }

  lemma LastIndexUnique(s: string, c: char, i: int)
    requires 0 <= i < |s| && s[i] == c
    requires forall j :: i < j < |s| ==> s[j] != c
    ensures LastIndex(s, c) == i
  {
  }

  lemma NoSlash(c: string)
    requires forall i :: 0 <= i < |c| ==> c[i] != '/'
    ensures LastIndex(c, '/') == -1 && Split(c) == [c] && Dir(c) == "." && Base(c) == c
  {
  }

  /** The last slash of `h/c` is the one in the middle. */
  lemma LastSlashOfAt(h: string, c: string)
    requires forall i :: 0 <= i < |c| ==> c[i] != '/'
    ensures LastIndex(At(h, c), '/') == |h| && At(h, c)[..|h|] == h && At(h, c)[|h| + 1..] == c
  {
    LastIndexUnique(At(h, c), '/', |h|);
  }

  lemma SplitAtSlash(r: string, i: int)
    requires 0 <= i < |r| && r[i] == '/'
    ensures r == At(r[..i], r[i + 1..])
  {
    assert [r[i]] == "/";
    assert r == r[..i] + [r[i]] + r[i + 1..];
  }

  /** A name in a directory: path.Dir and path.Base take them apart again, and path.Ext looks at the name alone. */
  lemma NameIn(h: string, c: string)
    requires '/' !in c
    ensures Dir(At(h, c)) == (if h == "" then "/" else h) && Base(At(h, c)) == c && Ext(At(h, c)) == Ext(c)
    ensures Dir(c) == "." && Base(c) == c
  {
    LastSlashOfAt(h, c);
    NoSlash(c);
  }

  /** path.Ext of a name is what stands from its last dot on, and nothing when it has no dot. */
  lemma ExtIs(b: string, e: string)
    requires '/' !in b && '/' !in e && '.' !in e
    ensures Ext(b + "." + e) == "." + e && Ext(e) == ""
  {
    var f := b + "." + e;
    NoSlash(f);
    NoSlash(e);
    LastIndexUnique(f, '.', |b|);
    assert f == b + ("." + e);
  }

  /** A path with a slash is its directory, the slash and its base name. */
  lemma DirBase(r: string)
    requires LastIndex(r, '/') > 0
    ensures r == At(Dir(r), Base(r)) && Below(r, Dir(r)) && |Dir(r)| < |r|
    ensures forall i :: 0 <= i < |Base(r)| ==> Base(r)[i] != '/'
    ensures Split(r) == Split(Dir(r)) + [Base(r)]
  {
    SplitAtSlash(r, LastIndex(r, '/'));
  }

  /** A clean relative path neither starts nor ends with a slash. */
  lemma {:induction false} RelCleanEnds(r: string)
    requires RelClean(r)
    ensures r != "" && r[0] != '/' && LastIndex(r, '/') != 0 && RootPath(r)
    decreases |r|
  {
    var i := LastIndex(r, '/');
    var ps := Split(r);
    assert CleanPart(ps[|ps| - 1]);
    if i >= 0 {
      var h := r[..i];
      assert ps == Split(h) + [r[i + 1..]];
      assert RelClean(h) by { assert forall c :: c in Split(h) ==> c in ps; }
      RelCleanEnds(h);
      assert h[0] == r[0];
    }
  }

  lemma DotNotClean()
    ensures !RelClean(".")
  {
    NoSlash(".");
    assert !CleanPart(Split(".")[0]);
  }

  /** The directory of a clean relative path is clean, unless the path is a single component. */
  lemma RelCleanDir(r: string)
    requires RelClean(r)
    ensures LastIndex(r, '/') < 0 <==> Dir(r) == "."
    ensures LastIndex(r, '/') < 0 ==> CleanPart(r) && Base(r) == r
    ensures Dir(r) != "." ==> RelClean(Dir(r)) && Below(r, Dir(r)) && r == At(Dir(r), Base(r))
    ensures CleanPart(Base(r))
  {
    RelCleanEnds(r);
    var ps := Split(r);
    assert CleanPart(ps[|ps| - 1]);
    if LastIndex(r, '/') > 0 {
      DirBase(r);
      assert RelClean(Dir(r)) by { assert forall c :: c in Split(Dir(r)) ==> c in ps; }
      DotNotClean();
    }
  }

  lemma RelCleanAt(d: string, c: string)
    requires RelClean(d) && CleanPart(c)
    ensures RelClean(At(d, c))
  {
    LastSlashOfAt(d, c);
    assert Split(At(d, c)) == Split(d) + [c];
  }

  /** The components of a joined path. */
  lemma {:induction false} SplitAt(d: string, r: string)
    ensures Split(At(d, r)) == Split(d) + Split(r)
    decreases |r|
  {
    hide LastIndex;
    var i, p := LastIndex(r, '/'), At(d, r);
    assert p == (d + "/") + r;
    if i < 0 {
      LastIndexUnique(p, '/', |d|);
      assert p[..|d|] == d && p[|d| + 1..] == r;
      assert Split(r) == [r];
    } else {
      LastIndexUnique(p, '/', |d| + 1 + i);
      assert p[..|d| + 1 + i] == At(d, r[..i]);
      assert p[|d| + 1 + i + 1..] == r[i + 1..];
      SplitAt(d, r[..i]);
      assert Split(p) == (Split(d) + Split(r[..i])) + [r[i + 1..]];
    }
  }

  /** A joined path is clean exactly when both its parts are. */
  lemma RelCleanJoin(d: string, r: string)
    ensures RelClean(At(d, r)) <==> RelClean(d) && RelClean(r)
  {
    SplitAt(d, r);
    assert forall c :: c in Split(At(d, r)) <==> c in Split(d) || c in Split(r);
  }

  lemma OneClean(c: string)
    requires CleanPart(c)
    ensures RelClean(c)
  {
    hide Split, LastIndex, Dir, Base;
    NoSlash(c);
    assert forall e :: e in Split(c) ==> e == c;
  }

  lemma {:induction false} JoinAllSplit(head: string, r: string)
    requires RootPath(head) && RelClean(r)
    ensures JoinAll(head, Split(r)) == At(head, r)
    decreases |r|
  {
    RelCleanDir(r);
    var ps := Split(r);
    if Dir(r) == "." {
      NoSlash(r);
      assert ps[..0] == [];
    } else {
      RelCleanEnds(r);
      DirBase(r);
      RelCleanEnds(Dir(r));
      assert ps[..|ps| - 1] == Split(Dir(r));
      JoinAllSplit(head, Dir(r));
      var h := At(head, Dir(r));
      assert h[|h| - 1] == Dir(r)[|Dir(r)| - 1];
      AtAssoc(head, Dir(r), Base(r));
    }
  }

  /** path.Dir commutes with re-rooting. */
  lemma DirAt(d: string, r: string)
    requires RootPath(d) && RelClean(r)
    ensures Dir(At(d, r)) == if Dir(r) == "." then d else At(d, Dir(r))
    ensures Base(At(d, r)) == Base(r)
    ensures RootPath(At(d, r))
  {
    hide RelClean, LastIndex, Split, CleanPart, Dir, Base, At, Ext;
    RelCleanDir(r);
    RelCleanEnds(r);
    RootAt(d, r);
    NoSlashIn(Base(r));
    if Dir(r) == "." {
      NameIn(d, r);
      RootNonEmpty(d);
    } else {
      NameIn(At(d, Dir(r)), Base(r));
      AtAssoc(d, Dir(r), Base(r));
      assert At(d, Dir(r)) != "" by { BelowNonEmpty(d, Dir(r)); }
    }
  }

  lemma BelowNonEmpty(d: string, r: string)
    ensures At(d, r) != ""
  {
  }

  lemma RootNonEmpty(d: string)
    ensures RootPath(d) ==> d != ""
  {
  }

  lemma NoSlashIn(c: string)
    requires CleanPart(c)
    ensures forall i :: 0 <= i < |c| ==> c[i] != '/'
  {
  }

  lemma DirJoin(head: string, c: string)
    requires RootPath(head) && CleanPart(c)
    ensures Join(head, c) == At(head, c) && Dir(Join(head, c)) == head && RootPath(Join(head, c))
    ensures Base(Join(head, c)) == c
  {
    LastSlashOfAt(head, c);
    assert At(head, c)[|At(head, c)| - 1] == c[|c| - 1];
  }

  /** Every path on the way down from `root` is at or below it and ends in no slash. */
  lemma {:induction false} JoinAllRoot(root: string, parts: seq<string>)
    requires RootPath(root) && forall c :: c in parts ==> CleanPart(c)
    ensures RootPath(JoinAll(root, parts)) && AtOrBelow(JoinAll(root, parts), root)
    decreases |parts|
  {
    if parts != [] {
      var pre, c := parts[..|parts| - 1], parts[|parts| - 1];
      JoinAllRoot(root, pre);
      DirJoin(JoinAll(root, pre), c);
      if JoinAll(root, pre) != root { BelowTrans(JoinAll(root, parts), JoinAll(root, pre), root); }
    }
  }

  // ---------------------------------------------------------------------------------- supplements

  lemma ExtApnx(b: string)
    requires forall i :: 0 <= i < |b| ==> b[i] != '/'
    ensures Ext(b + ".apnx") == ".apnx"
  {
    var p := b + ".apnx";
    assert forall i :: 0 <= i < |p| ==> p[i] != '/';
    assert LastIndex(p, '/') == -1;
    assert Base(p) == p;
    LastIndexUnique(p, '.', |b|);
    assert p[|b|..] == ".apnx";
  }

  /** The supplements of a book with no directory: a page index beside it or in its own folder. */
  function SupplementsIn(dir: string, base: string): seq<string> {
    [Join(dir, base + ".apnx"), Join(Join(dir, base + ".sdr"), base + ".apnx")]
  }

  lemma SupplementsOf(dir: string, f: string)
    requires RootPath(dir) && CleanPart(f)
    ensures Supplements(At(dir, f)) == SupplementsIn(dir, Stem(f))
  {
    var p := At(dir, f);
    LastSlashOfAt(dir, f);
    assert p[..|dir| + 1] == dir + "/";
    assert p[..|dir| + 1][|dir|..] == "/";
    assert TrimSuffix(dir + "/", "/") == dir;
  }

  lemma SupplementsOfName(f: string)
    requires CleanPart(f)
    ensures Supplements(f) == SupplementsIn("", Stem(f))
  {
    NoSlash(f);
    assert f[..0] == "" && f[0..] == f;
  }

  /** path.Join puts one slash between two elements, be there one already or not, and none beside an empty element. */
  lemma JoinIs(h: string, b: string)
    ensures b != "" && RootPath(h) ==> Join(h, b) == h + "/" + b
    ensures b != "" ==> Join(h + "/", b) == h + "/" + b
    ensures Join("", b) == b && Join(h, "") == h
  {
    assert (h + "/")[|h + "/"| - 1] == '/';
  }

  lemma JoinPlain(a: string, b: string)
    requires RootPath(a) && b != ""
    ensures Join(a, b) == At(a, b)
  {
  }

  lemma RootAt(d: string, r: string)
    requires RootPath(r)
    ensures RootPath(At(d, r))
  {
    assert At(d, r)[|At(d, r)| - 1] == r[|r| - 1];
  }

  /** Joining below a moved directory is moving the join. */
  lemma JoinMoved(d: string, dir: string, x: string)
    requires RootPath(d) && (dir == "" || RootPath(dir)) && x != ""
    ensures Join(if dir == "" then d else At(d, dir), x) == At(d, Join(dir, x))
  {
    if dir == "" {
      JoinPlain(d, x);
    } else {
      RootAt(d, dir);
      JoinPlain(At(d, dir), x);
      JoinPlain(dir, x);
      AtAssoc(d, dir, x);
    }
  }

  lemma JoinRoot(dir: string, x: string)
    requires RootPath(x) && (dir == "" || RootPath(dir))
    ensures RootPath(Join(dir, x))
  {
    if dir != "" {
      JoinPlain(dir, x);
      RootAt(dir, x);
    }
  }

  lemma SupplementsInAt(d: string, dir: string, base: string)
    requires RootPath(d) && (dir == "" || RootPath(dir))
    ensures forall i :: 0 <= i < 2 ==>
              SupplementsIn(if dir == "" then d else At(d, dir), base)[i] == At(d, SupplementsIn(dir, base)[i])
  {
    hide Join, At;
    var x, y := base + ".apnx", base + ".sdr";
    assert y[|y| - 1] == 'r';
    JoinMoved(d, dir, x);
    JoinMoved(d, dir, y);
    JoinRoot(dir, y);
    JoinMoved(d, Join(dir, y), x);
  }

  lemma BaseOfJoin(a: string, b: string)
    requires b != "" && (a == "" || a[|a| - 1] != '/') && forall i :: 0 <= i < |b| ==> b[i] != '/'
    ensures Base(Join(a, b)) == b
  {
    if a == "" { NoSlash(b); } else { LastSlashOfAt(a, b); }
  }

  lemma SupplementsInBase(dir: string, base: string)
    requires dir == "" || RootPath(dir)
    requires forall i :: 0 <= i < |base| ==> base[i] != '/'
    ensures Ext(Base(SupplementsIn(dir, base)[0])) == ".apnx"
    ensures Ext(Base(SupplementsIn(dir, base)[1])) == ".apnx"
  {
    hide Join, Base, Ext;
    var x, y := base + ".apnx", base + ".sdr";
    ExtApnx(base);
    assert forall i :: 0 <= i < |x| ==> x[i] != '/';
    BaseOfJoin(dir, x);
    assert y[|y| - 1] == 'r';
    JoinRoot(dir, y);
    BaseOfJoin(Join(dir, y), x);
    ExtOfBase(x);
  }

  /** The extension of a plain name is the one of any path that ends in it. */
  lemma ExtOfBase(x: string)
    requires forall i :: 0 <= i < |x| ==> x[i] != '/'
    ensures Base(x) == x
  {
    NoSlash(x);
  }

  /** The stem of a file: its name without the extension. */
  function Stem(f: string): (b: string)
    ensures b <= f
  {
    TrimSuffix(f, Ext(f))
  }

  /** The page indexes of a book are named by all of its name but the extension: one lies beside the book, the other in
      a folder of that name beside it. */
  lemma SupplementsAre(dir: string, f: string, b: string)
    requires CleanPart(f) && b + Ext(f) == f
    ensures RootPath(dir) ==>
              Supplements(At(dir, f)) == [At(dir, b + ".apnx"), At(At(dir, b + ".sdr"), b + ".apnx")]
    ensures Supplements(f) == [b + ".apnx", At(b + ".sdr", b + ".apnx")]
  {
    hide Supplements, Stem, CleanPart, Ext;
    assert Stem(f) == b by { StemIs(f, b); }
    var x, y := b + ".apnx", b + ".sdr";
    assert x[|x| - 1] == 'x' && y[|y| - 1] == 'r';
    SupplementsOfName(f);
    if RootPath(dir) {
      SupplementsOf(dir, f);
      RootAt(dir, y);
    }
  }

  /** The same from the relative path of a book: without its extension it is the path of the page index beside the book,
      and the path of the folder that may hold the other one. */
  lemma SupplementsUnder(root: string, k: string, stem: string)
    requires RootPath(root) && RelClean(k) && stem + Ext(k) == k
    ensures Supplements(At(root, k)) == [At(root, stem + ".apnx"), At(root, stem + ".sdr/" + Base(stem) + ".apnx")]
  {
    hide Supplements, RelClean, CleanPart, RootPath, Ext, Dir, Base, At;
    RelCleanDir(k);
    var f, e := Base(k), Ext(k);
    NoSlashIn(f);
    if Dir(k) == "." {
      SupplementsAre(root, k, stem);
      StemPart(stem, e);
      Folder(root, "", stem);
    } else {
      var h := Dir(k);
      NameIn(h, f);
      var b := NameStem(h, f, stem, e);
      RootOfDir(root, k);
      SupplementsAre(At(root, h), f, b);
      AtAssoc(root, h, f);
      Folder(root, h, b);
      NameIn(h, b);
    }
  }

  lemma RootOfDir(root: string, k: string)
    requires RelClean(k) && Dir(k) != "."
    ensures RootPath(At(root, Dir(k)))
  {
    RelCleanDir(k);
    RelCleanEnds(Dir(k));
    RootAt(root, Dir(k));
  }

  lemma NameStem(h: string, f: string, stem: string, e: string) returns (b: string)
    requires '/' !in f && stem + e == At(h, f) && e == Ext(f)
    ensures b + e == f && stem == At(h, b) && '/' !in b
  {
    ExtShort(f);
    b := f[..|f| - |e|];
    assert At(h, f) == (h + "/") + f;
    assert (stem + e)[|stem|..] == e && At(h, f)[|stem|..] == f[|f| - |e|..];
    assert stem == (stem + e)[..|stem|] == At(h, f)[..|stem|] == At(h, b);
  }

  lemma ExtShort(f: string)
    requires '/' !in f
    ensures |Ext(f)| <= |f|
  {
    NoSlash(f);
  }

  lemma AtSuffix(h: string, b: string, z: string)
    ensures At(h, b + z) == At(h, b) + z
  {
    assert h + "/" + (b + z) == h + "/" + b + z;
  }

  /** A folder of the stem with the index in it, as one text. */
  lemma InFolder(b: string, sdr: string, sdrSlash: string, x: string)
    requires sdrSlash == sdr + "/"
    ensures At(b + sdr, b + x) == b + (sdrSlash + b + x)
    ensures forall stem: string :: stem + (sdrSlash + b + x) == stem + sdrSlash + b + x
  {
    assert (b + sdr) + "/" + (b + x) == b + ((sdr + "/") + b + x);
    forall stem: string ensures stem + (sdrSlash + b + x) == stem + sdrSlash + b + x {}
  }

  /** The two page indexes of a book in the directory `h` of `root`, without one if `h` is empty. */
  lemma Folder(root: string, h: string, b: string)
    ensures var stem := if h == "" then b else At(h, b);
            var d := if h == "" then root else At(root, h);
            && At(d, b + ".apnx") == At(root, stem + ".apnx")
            && At(At(d, b + ".sdr"), b + ".apnx") == At(root, stem + ".sdr/" + b + ".apnx")
  {
    hide At;
    var x, z := ".apnx", ".sdr/" + b + ".apnx";
    var d := if h == "" then root else At(root, h);
    AtAssoc(d, b + ".sdr", b + x);
    InFolder(b, ".sdr", ".sdr/", x);
    if h != "" {
      AtAssoc(root, h, b + x);
      AtAssoc(root, h, b + z);
      AtSuffix(h, b, x);
      AtSuffix(h, b, z);
    }
  }

  lemma StemPart(b: string, e: string)
    requires '/' !in b + e
    ensures Base(b) == b
  {
    assert forall i :: 0 <= i < |b| ==> b[i] == (b + e)[i];
    NoSlash(b);
  }

  lemma StemIs(f: string, b: string)
    requires b + Ext(f) == f
    ensures Stem(f) == b
  {
    hide Ext;
    assert f[|f| - |Ext(f)|..] == Ext(f);
  }

  /** The paths in `s` are those in `t` moved under `d`, and they name page-index files. */
  predicate Rerooted(d: string, s: seq<string>, t: seq<string>) {
    && |s| == |t| == 2
    && s[0] == At(d, t[0]) && s[1] == At(d, t[1])
    && Ext(Base(s[0])) == ".apnx" && Ext(Base(s[1])) == ".apnx"
  }

  predicate RerootsSupplements(d: string, r: string) {
    Rerooted(d, Supplements(At(d, r)), Supplements(r))
  }

  lemma SupplementsAtName(d: string, f: string)
    requires RootPath(d) && CleanPart(f)
    ensures RerootsSupplements(d, f)
  {
    SupplementsOf(d, f);
    SupplementsOfName(f);
    SupplementsInAt(d, "", Stem(f));
    SupplementsInBase(d, Stem(f));
  }

  lemma SupplementsInRerooted(d: string, dir: string, base: string)
    requires RootPath(d) && RootPath(dir) && forall i :: 0 <= i < |base| ==> base[i] != '/'
    ensures Rerooted(d, SupplementsIn(At(d, dir), base), SupplementsIn(dir, base))
  {
    RootAt(d, dir);
    SupplementsInAt(d, dir, base);
    SupplementsInBase(At(d, dir), base);
  }

  lemma SupplementsAtDir(d: string, dir: string, f: string)
    requires RootPath(d) && RootPath(dir) && CleanPart(f)
    ensures RerootsSupplements(d, At(dir, f))
  {
    hide Supplements, SupplementsIn, Rerooted, RootPath, Stem, At;
    AtAssoc(d, dir, f);
    RootAt(d, dir);
    StemPlain(f);
    assert Supplements(At(d, At(dir, f))) == SupplementsIn(At(d, dir), Stem(f)) by { SupplementsOf(At(d, dir), f); }
    assert Supplements(At(dir, f)) == SupplementsIn(dir, Stem(f)) by { SupplementsOf(dir, f); }
    SupplementsInRerooted(d, dir, Stem(f));
  }

  lemma StemPlain(f: string)
    requires CleanPart(f)
    ensures forall i :: 0 <= i < |Stem(f)| ==> Stem(f)[i] != '/'
  {
    hide TrimSuffix, Ext;
    assert forall i :: 0 <= i < |Stem(f)| ==> Stem(f)[i] == f[i];
  }

  /** A book under `d` has its supplements under `d` at the place that the relative path alone determines, and
      both carry the extension of page-index files. */
  lemma SupplementsAt(d: string, r: string)
    requires RootPath(d) && RelClean(r)
    ensures RerootsSupplements(d, r)
  {
    RelCleanDir(r);
    if Dir(r) == "." {
      SupplementsAtName(d, r);
    } else {
      RelCleanEnds(Dir(r));
      SupplementsAtDir(d, Dir(r), Base(r));
    }
  }
}
