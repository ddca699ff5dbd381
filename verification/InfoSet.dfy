/** objects/infoset.go: sets of file-system objects keyed by path.  The functions say what each operation
    computes; class ObjectInfoSet does it in place, as the Go map does. */
module InfoSet {
  import opened Paths

  datatype Option<+T> = None | Some(value: T)

  /** An object.  `id` stands for the identity of the Go pointer: two entries are the same object if and only if
      they have the same id.  `pid` is the hash of the content, empty when the driver does not compute it; `thumb`
      is the name of the thumbnail extracted from a book; `from` is where a Copy reads. */
  datatype Obj = Obj(id: nat, name: string, pid: string, dir: bool, path: string, thumb: string, from: string)

  type OIS = map<string, Obj>

  function Find(os: OIS, p: string): Option<Obj> {
    if p != "" && p in os then Some(os[p]) else None
  }

  function Put(os: OIS, p: string, o: Obj): OIS {
    if p != "" then os[p := o] else os
  }

  function Drop(os: OIS, p: string): OIS {
    if p != "" then os - {p} else os
  }

  function Filter(os: OIS, f: (string, Obj) -> bool): OIS {
    map k | k in os && f(k, os[k]) :: os[k]
  }

  function Subtract(os: OIS, other: OIS): OIS {
    map k | k in os && k !in other :: os[k]
  }

  function Intersect(os: OIS, other: OIS): OIS {
    map k | k in os && k in other :: os[k]
  }

  function Union(os: OIS, other: OIS): OIS {
    os + other
  }

  function Diff(os: OIS, other: OIS, same: (Obj, Obj) -> bool): OIS {
    map k | k in os && k in other && !same(os[k], other[k]) :: os[k]
  }

  /** Entries of `a` that are in `c` but not in `b`. */
  lemma SubtractIntersect(a: OIS, b: OIS, c: OIS)
    ensures forall k :: k in Intersect(Subtract(a, b), c) <==> k in a && k !in b && k in c
    ensures forall k :: k in Intersect(Subtract(a, b), c) ==> Intersect(Subtract(a, b), c)[k] == a[k]
  {
  }

  /** Does SubsetByPath(dir) select this entry?  The prefix is compared as text, so a sibling of `dir` whose name
      starts with the name of `dir` is selected as well. */
  predicate Selected(k: string, o: Obj, dir: string) {
    if o.dir then k != dir && dir <= k else Dir(k) != "." && dir <= Dir(k)
  }

  predicate SelectedIn(os: OIS, k: string, dir: string) {
    k in os && Selected(k, os[k], dir)
  }

  predicate NothingSelected(os: OIS, dir: string) {
    forall k :: k in os ==> !SelectedIn(os, k, dir)
  }

  /** What SubsetByPath may return.  When two selected keys are shortened to the same key the Go result depends on
      the order in which the map is walked, so this is a relation. */
  ghost predicate IsSubsetByPath(os: OIS, dir: string, r: OIS) {
    if dir == "" then r == os
    else
      && (forall k :: SelectedIn(os, k, dir) ==> TrimPrefix(k, dir + "/") in r)
      && (forall n :: n in r ==> FromSelected(os, dir, n, r[n]))
  }

  ghost predicate FromSelected(os: OIS, dir: string, n: string, o: Obj) {
    exists k :: SelectedIn(os, k, dir) && TrimPrefix(k, dir + "/") == n && os[k] == o
  }

  /** What SubsetByPath makes of the entry at `k`: a directory is selected when its path is longer than `dir` and starts
      with its text, a file in a directory when the path of that directory starts with it, and a file in none is not.
      It is stored under its path relative to `dir` if it lies there, and under its own path if it merely seems to. */
  lemma SubsetEntry(os: OIS, dir: string, r: OIS, k: string, h: string, c: string)
    requires dir != "" && IsSubsetByPath(os, dir, r) && k in os && '/' !in c
    ensures os[k].dir ==> (SelectedIn(os, k, dir) <==> dir <= k && |k| > |dir|)
    ensures !os[k].dir && k == At(h, c) && h !in {"", "."} ==> (SelectedIn(os, k, dir) <==> dir <= h)
    ensures !os[k].dir && k == c ==> !SelectedIn(os, k, dir)
    ensures SelectedIn(os, k, dir) ==> (if Below(k, dir) then Rel(k, dir) else k) in r
  {
    if k == At(h, c) { NameIn(h, c); }
    if k == c { NoSlash(c); }
    TrimBelow(k, dir);
  }

  /** No entry outside `dir` has a path that merely starts with the text of `dir`. */
  ghost predicate NoRawSiblings(os: OIS, dir: string) {
    forall k :: SelectedIn(os, k, dir) ==> Below(k, dir)
  }

  /** `r` has the strict descendants of `dir`, keyed by their path relative to it. */
  ghost predicate IsDescend(os: OIS, dir: string, r: OIS) {
    if os == map[] then r == map[]
    else
      && (forall n :: n in r <==> At(dir, n) in os)
      && (forall n :: n in r ==> r[n] == os[At(dir, n)])
  }

  lemma DescendExists(os: OIS, dir: string)
    ensures exists r :: IsDescend(os, dir, r)
  {
    var ks := set k | k in os && Below(k, dir) :: Rel(k, dir);
    forall n ensures n in ks <==> At(dir, n) in os {
      if n in ks {
        var k :| k in os && Below(k, dir) && Rel(k, dir) == n;
        AtRel(k, dir);
      }
      if At(dir, n) in os { assert Below(At(dir, n), dir); }
    }
    assert IsDescend(os, dir, map n | n in ks :: os[At(dir, n)]);
  }

  /** The strict descendants of `dir`, keyed by their path relative to it. */
  ghost function Descend(os: OIS, dir: string): (r: OIS)
    ensures IsDescend(os, dir, r)
  {
    DescendExists(os, dir);
    var r :| IsDescend(os, dir, r);
    r
  }

  lemma TrimBelow(k: string, dir: string)
    ensures Below(k, dir) <==> dir + "/" <= k && |k| > |dir|
    ensures Below(k, dir) ==> TrimPrefix(k, dir + "/") == Rel(k, dir)
  {
    if Below(k, dir) {
      AtRel(k, dir);
      assert k == (dir + "/") + Rel(k, dir);
    }
    if dir + "/" <= k {
      assert k[..|dir| + 1] == dir + "/";
      assert k[..|dir|] == k[..|dir| + 1][..|dir|] == dir;
      assert k[|dir|] == k[..|dir| + 1][|dir|];
    }
  }

  /** A strict descendant is always selected. */
  lemma BelowSelected(os: OIS, k: string, dir: string)
    requires k in os && Below(k, dir) && RootPath(dir) && dir != "."
    ensures SelectedIn(os, k, dir)
  {
    DirOfBelow(k, dir);
    assert k[..|dir|] == dir;
    var d := Dir(k);
    if d != dir { assert d[..|dir|] == dir; }
  }

  /** Every entry carries its own key as its path, as the drivers enumerate them. */
  ghost predicate Keyed(os: OIS) {
    forall k :: k in os ==> os[k].path == k
  }

  /** Re-rooting is exact precisely when there are no raw-prefix siblings: then, and only then, every possible
      result of SubsetByPath is the map of strict descendants under their relative keys. */
  lemma SubsetByPathExact(os: OIS, dir: string)
    requires RootPath(dir) && dir != "." && Keyed(os)
    ensures NoRawSiblings(os, dir) <==> (forall r :: IsSubsetByPath(os, dir, r) ==> r == Descend(os, dir))
  {
    if NoRawSiblings(os, dir) {
      forall r | IsSubsetByPath(os, dir, r) ensures r == Descend(os, dir) {
        SubsetIsDescend(os, dir, r);
      }
    } else {
      var k :| SelectedIn(os, k, dir) && !Below(k, dir);
      var r := SomeSubset(os, dir, k);
      TrimBelow(k, dir);
      SelectedNotShort(os, k, dir);
      assert r[k].path == k;
      assert k in Descend(os, dir) ==> Descend(os, dir)[k].path == At(dir, k);
      assert r != Descend(os, dir);
    }
  }

  lemma SelectedNotShort(os: OIS, k: string, dir: string)
    requires SelectedIn(os, k, dir) && RootPath(dir)
    ensures |k| > |dir|
  {
    assert dir <= "/" ==> |dir| == 1;
  }

  /** At a key that is not the path of a raw sibling, every possible result is exact. */
  lemma SubsetAt(os: OIS, dir: string, r: OIS, n: string)
    requires RootPath(dir) && dir != "." && IsSubsetByPath(os, dir, r)
    requires SelectedIn(os, n, dir) ==> Below(n, dir)
    ensures n in r <==> n in Descend(os, dir)
    ensures n in r ==> r[n] == Descend(os, dir)[n]
  {
    hide RootPath, Selected, Below;
    assert dir != "" by { RootNotEmpty(dir); }
    if n in r {
      assert FromSelected(os, dir, n, r[n]);
      var k :| SelectedIn(os, k, dir) && TrimPrefix(k, dir + "/") == n && os[k] == r[n];
      SelectedLong(os, k, dir);
      TrimBelow(k, dir);
      if Below(k, dir) { AtRel(k, dir); }
    }
    if n in Descend(os, dir) {
      BelowSelected(os, At(dir, n), dir);
      TrimBelow(At(dir, n), dir);
    }
  }

  lemma SelectedLong(os: OIS, k: string, dir: string)
    requires SelectedIn(os, k, dir) && RootPath(dir)
    ensures !Below(k, dir) ==> TrimPrefix(k, dir + "/") == k
  {
    SelectedNotShort(os, k, dir);
    TrimBelow(k, dir);
  }

  lemma SubsetIsDescend(os: OIS, dir: string, r: OIS)
    requires RootPath(dir) && dir != "." && NoRawSiblings(os, dir) && IsSubsetByPath(os, dir, r)
    ensures r == Descend(os, dir)
  {
    hide RootPath, SelectedIn, Below, IsSubsetByPath, Descend;
    forall n ensures n in r <==> n in Descend(os, dir) { SubsetAt(os, dir, r, n); }
    forall n | n in r ensures r[n] == Descend(os, dir)[n] { SubsetAt(os, dir, r, n); }
  }

  /** Without raw siblings the strict descendants are what SubsetByPath returns. */
  lemma DescendIsSubset(os: OIS, dir: string)
    requires RootPath(dir) && dir != "." && NoRawSiblings(os, dir)
    ensures IsSubsetByPath(os, dir, Descend(os, dir))
  {
    hide RootPath, Selected, Below;
    var sub := Descend(os, dir);
    assert dir != "" by { RootNotEmpty(dir); }
    forall k | SelectedIn(os, k, dir) ensures TrimPrefix(k, dir + "/") in sub {
      TrimBelow(k, dir);
      AtRel(k, dir);
    }
    forall n | n in sub ensures FromSelected(os, dir, n, sub[n]) {
      BelowSelected(os, At(dir, n), dir);
      TrimBelow(At(dir, n), dir);
    }
  }

  lemma RootNotEmpty(dir: string)
    requires RootPath(dir)
    ensures dir != ""
  {
  }

  /** SubsetByPath has a result. */
  lemma AnySubset(os: OIS, dir: string) returns (r: OIS)
    ensures IsSubsetByPath(os, dir, r)
  {
    var ns := set q | q in os && SelectedIn(os, q, dir) :: TrimPrefix(q, dir + "/");
    r := if dir == "" then os else map[];
    var todo := if dir == "" then {} else ns;
    while todo != {}
      invariant todo <= ns && (dir != "" ==> r.Keys == ns - todo) && (dir == "" ==> r == os)
      invariant dir != "" ==> forall n :: n in r ==> FromSelected(os, dir, n, r[n])
      decreases todo
    {
      var n :| n in todo;
      var q :| q in os && SelectedIn(os, q, dir) && TrimPrefix(q, dir + "/") == n;
      r := r[n := os[q]];
      todo := todo - {n};
    }
  }

  /** A possible result of SubsetByPath in which the entry `k` was stored last. */
  lemma SomeSubset(os: OIS, dir: string, k: string) returns (r: OIS)
    requires dir != "" && SelectedIn(os, k, dir)
    ensures IsSubsetByPath(os, dir, r) && TrimPrefix(k, dir + "/") in r && r[TrimPrefix(k, dir + "/")] == os[k]
  {
    r := AnySubset(os, dir);
    r := r[TrimPrefix(k, dir + "/") := os[k]];
  }
}
