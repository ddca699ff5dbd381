/** When the order of the loops decides which directories are left in the source: exactly when a directory is emptied
    whose raw siblings, and those of the directories in it, are all removed as well. */
module Undecided {
  import opened Paths
  import opened InfoSet
  import opened Plan
  import opened FileSystem
  import opened WellFormed
  import opened Invariant
  import opened LocalPhase
  import opened Removals
  import opened Setting
  import opened Decisions
  import opened Outcomes
  import opened Theorems
  import opened Counting
  import opened Pruning

  /** A path that is not in `e` and starts with its text. */
  predicate RawSibling(S: OIS, e: string, k: string) {
    SelectedIn(S, k, e) && !Below(k, e)
  }

  ghost predicate SiblingGone(S: OIS, R: set<string>, d: string, e: string, k: string) {
    AtOrBelow(e, d) && e in S && S[e].dir && RawSibling(S, e, k) ==> Gone(S, R, k)
  }

  /** An emptied directory that one order removes and another one leaves. */
  ghost predicate IsUndecided(S: OIS, root: string, R: set<string>, d: string) {
    Pruned(S, root, R, d) && !RawFree(S, root, d) && forall e, k :: SiblingGone(S, R, d, e, k)
  }

  ghost predicate NoneUndecided(i: Inputs) {
    forall d :: !IsUndecided(i.src, i.cfg.source, RemovedSet(i.src, i.cfg.source, Row7(i)), d)
  }

  // ---------------------------------------------------------------------------------- a directory that always stays

  /** A raw sibling that is not removed keeps the directory, whatever the order. */
  lemma KeptBySibling(i: Inputs, b: Subsets, o: Orders, w: World, e: string, k: string)
    requires RunOK(i, b, w) && IsOrders(i, b, o) && SourceShape(i.src, i.cfg.source)
    requires e in i.src && i.src[e].dir && Below(e, i.cfg.source) && RawSibling(i.src, e, k)
    requires !Gone(i.src, RemovedSet(i.src, i.cfg.source, Row7(i)), k)
    ensures e in FinalState(i, b, o).src
  {
    hide RunOK, SourceShape, SafeBook, IsOrder, Objs7, Active7, Row7, Loop7, Supplements, Below, Gone, FinalState,
         Objs6, Objs3, Active6, Loop6;
    LocalAfter7(i, b, o, w);
    assert Blocks(i.src, e, k) by { SiblingBlocks(i.src, i.cfg.source, e, k); }
    assert Stays(i.src, e, k, true) && e != "" by { BlocksIn(i.src, e, k); }
    var s0, objs := i.Start(b.thumbs), Objs7(i, b);
    DeviceMode(i, b, w);
    Active7Is(i, b, w);
    if Active7(i, b) {
      Row7Some(i, b, w);
      Row7Order(i, b, w);
      OrderKeys(o.o7, Row7(i));
      forall j | 0 <= j < |o.o7|
        ensures o.o7[j] in objs && SafeBook(s0.src, i.cfg.source, e, k, j < |o.o7|, objs[o.o7[j]])
      {
        assert o.o7[j] in o.o7;
        SafeKept(i, b, w, o.o7[j], e, k);
      }
      Loop7Stays(i.cfg, i.ThumbsAvailable(), s0, objs, o.o7, |o.o7|, e, k);
    }
  }

  lemma Row7Some(i: Inputs, b: Subsets, w: World)
    requires RunOK(i, b, w) && Active7(i, b)
    ensures Row7(i) != {}
  {
    hide RunOK, Row7, Objs7;
    Active7Is(i, b, w);
    EmptyMap(Objs7(i, b));
    DeviceMode(i, b, w);
  }

  lemma SiblingBlocks(S: OIS, root: string, e: string, k: string)
    requires SourceShape(S, root) && e in S && S[e].dir && Below(e, root) && RawSibling(S, e, k)
    ensures Blocks(S, e, k)
  {
    assert SourceAt(S, root, e);
    BelowAsym(e, root);
    SelectedNotShort(S, k, e);
  }

  lemma SafeKept(i: Inputs, b: Subsets, w: World, j: string, e: string, k: string)
    requires RunOK(i, b, w) && SourceShape(i.src, i.cfg.source) && j in Row7(i)
    requires e in i.src && i.src[e].dir && Below(e, i.cfg.source) && RawSibling(i.src, e, k)
    requires !Gone(i.src, RemovedSet(i.src, i.cfg.source, Row7(i)), k)
    ensures j in i.hst && SafeBook(i.src, i.cfg.source, e, k, true, i.hst[j])
  {
    hide RunOK, WorldOK, ViewsOK, SourceShape, Row7, LocalBooks, HistoryBooks, DeviceBooksAt, Supplements, Below,
         SafeFile, Selected, Gone;
    RunParts(i, b, w);
    Row7NotDevice(i, j);
    Row7Path(i, w, j);
    LocalBookNotDir(i, j);
    var p := At(i.cfg.source, j);
    SafeKeptFile(i, w, j, p, e, k);
    SafeKeptFile(i, w, j, Supplements(p)[0], e, k);
    SafeKeptFile(i, w, j, Supplements(p)[1], e, k);
  }

  lemma SafeKeptFile(i: Inputs, w: World, j: string, q: string, e: string, k: string)
    requires WorldOK(i.cfg, w) && ViewsOK(i, w) && SourceShape(i.src, i.cfg.source) && j in Row7(i)
    requires VictimOf(i.cfg.source, j, q)
    requires e in i.src && i.src[e].dir && k in i.src && !Gone(i.src, RemovedSet(i.src, i.cfg.source, Row7(i)), k)
    ensures SafeIndex(i.src, i.cfg.source, e, k, true, q)
  {
    hide WorldOK, ViewsOK, Row7, VictimOf, LocalBooks, HistoryBooks, DeviceBooksAt, Dir;
    if q in i.src {
      Row7NotDevice(i, j);
      LocalVictim(i, w, j, q);
      LocalPathIs(i, w, q);
      assert q in RemovedSet(i.src, i.cfg.source, Row7(i));
      DirOfBelow(q, i.cfg.source);
      if AtOrBelow(Dir(q), k) {
        if Dir(q) != k { BelowTrans(q, Dir(q), k); }
        SiblingDir(i.src, i.cfg.source, q, k);
      }
    }
  }

  /** Above a file of the source there are directories. */
  lemma SiblingDir(S: OIS, root: string, q: string, k: string)
    requires SourceShape(S, root) && q in S && k in S && Below(q, k)
    ensures S[k].dir
  {
    assert SourceAt(S, root, k);
    AboveIsDir(S, root, q, k);
  }

  // ---------------------------------------------------------------------------------- a directory that goes

  /** No path of the mirror merely starts with the text of `e`. */
  predicate NoSibling(src: OIS, e: string) {
    forall k :: k in src ==> !RawSibling(src, e, k)
  }

  ghost predicate HasBelow(src: OIS, e: string) {
    exists p :: p in src && Below(p, e)
  }

  /** If the directory is there, something is in it. */
  ghost predicate NotEmptied(src: OIS, e: string) {
    NoSibling(src, e) && (e in src ==> HasBelow(src, e))
  }

  lemma NoSiblingLess(src: OIS, t: OIS, e: string)
    requires NoSibling(src, e) && Shrinks(src, t)
    ensures NoSibling(t, e)
  {
    forall k | k in t ensures !RawSibling(t, e, k) { assert !RawSibling(src, e, k); }
  }

  /** What is selected in a directory at or below `e` is below `e`. */
  lemma SelectedBelow(src: OIS, e: string, dir: string, k: string)
    requires NoSibling(src, e) && k in src && SelectedIn(src, k, dir) && AtOrBelow(dir, e)
    ensures Below(k, e)
  {
    if dir == e {
      assert !RawSibling(src, e, k);
    } else if src[k].dir {
      StartsBelow(k, dir, e);
    } else {
      StartsBelow(Dir(k), dir, e);
      DirPrefix(k);
      StartsBelow(k, Dir(k), e);
    }
  }

  lemma StartsBelow(k: string, dir: string, e: string)
    requires dir <= k && Below(dir, e)
    ensures Below(k, e)
  {
    assert k[..|e|] == dir[..|e|] && k[|e|] == dir[|e|];
  }

  lemma DirPrefix(k: string)
    ensures Dir(k) == "." || Dir(k) <= k
  {
  }

  /** The upward recursion from a directory in `e` goes on to `e` unless it finds something in `e`. */
  lemma {:induction false} RemoveDirsFrom(s: PState, dir: string, root: string, e: string)
    requires NoSibling(s.src, e) && AtOrBelow(dir, e) && Below(e, root) && e != "" && root != ""
    ensures Shrinks(s.src, RemoveDirs(s, dir, root).src) && NotEmptied(RemoveDirs(s, dir, root).src, e)
    decreases |dir|
  {
    hide Dir, SelectedIn;
    assert dir != root && dir != "" by { InsideRoot(dir, e, root); }
    if NothingSelected(s.src, dir) {
      var found := Find(s.src, dir);
      var s1 := if found.Some? then s.(acts := s.acts + [Action(Src, Remove, found.value)], src := Drop(s.src, dir))
          else s;
      NoSiblingLess(s.src, s1.src, e);
      if dir == e {
        assert |Dir(dir)| < |dir| by { DirOfBelow(e, root); }
        RemoveDirsShrinks(s1, Dir(dir), root);
        NoSiblingLess(s1.src, RemoveDirs(s1, Dir(dir), root).src, e);
      } else {
        DirOfBelow(dir, e);
        RemoveDirsFrom(s1, Dir(dir), root, e);
      }
    } else {
      var k :| k in s.src && SelectedIn(s.src, k, dir);
      SelectedBelow(s.src, e, dir, k);
    }
  }

  lemma InsideRoot(dir: string, e: string, root: string)
    requires AtOrBelow(dir, e) && Below(e, root)
    ensures dir != root && dir != ""
  {
    if dir != e { BelowTrans(dir, e, root); }
  }

  lemma {:induction false} RemoveDirsShrinks(s: PState, dir: string, root: string)
    ensures Shrinks(s.src, RemoveDirs(s, dir, root).src)
    decreases |dir|
  {
    hide Dir;
    if dir != root && (if dir == "" then s.src == map[] else NothingSelected(s.src, dir)) {
      var found := Find(s.src, dir);
      var s1 := if found.Some? then s.(acts := s.acts + [Action(Src, Remove, found.value)], src := Drop(s.src, dir))
          else s;
      if |Dir(dir)| < |dir| { RemoveDirsShrinks(s1, Dir(dir), root); }
    }
  }

  /** The upward recursion from a directory that is not in `e` leaves `e` and what is in it. */
  lemma {:induction false} RemoveDirsBeside(s: PState, dir: string, root: string, e: string)
    requires AtOrBelow(dir, root) && root != "" && !AtOrBelow(dir, e) && NotEmptied(s.src, e)
    ensures Shrinks(s.src, RemoveDirs(s, dir, root).src) && NotEmptied(RemoveDirs(s, dir, root).src, e)
    decreases |dir|
  {
    hide Dir, SelectedIn, Selected;
    if dir != root && (if dir == "" then s.src == map[] else NothingSelected(s.src, dir)) {
      DirOfBelow(dir, root);
      var found := Find(s.src, dir);
      var s1 := if found.Some? then s.(acts := s.acts + [Action(Src, Remove, found.value)], src := Drop(s.src, dir))
          else s;
      BesideStays(s.src, dir, e);
      if Below(Dir(dir), e) { BelowTrans(dir, Dir(dir), e); }
      RemoveDirsBeside(s1, Dir(dir), root, e);
    }
  }

  lemma BesideStays(src: OIS, p: string, e: string)
    requires NotEmptied(src, e) && !AtOrBelow(p, e)
    ensures NotEmptied(Drop(src, p), e) && Shrinks(src, Drop(src, p))
  {
    hide Selected;
    var t := Drop(src, p);
    NoSiblingLess(src, t, e);
    if e in t {
      var q :| q in src && Below(q, e);
      assert q in t;
    }
  }

  lemma DotOutside(root: string)
    requires root != "" && root != "."
    ensures !AtOrBelow(".", root)
  {
  }

  /** Removing a file of the source. */
  lemma RemoveObjectKeeps(s: PState, obj: Obj, root: string, e: string)
    requires NotEmptied(s.src, e) && Below(obj.path, root) && Below(e, root) && root != "" && root != "." && e != ""
    requires obj.path != e
    ensures Shrinks(s.src, RemoveObject(s, obj, root).src) && NotEmptied(RemoveObject(s, obj, root).src, e)
  {
    hide Dir, RemoveDirs, Selected;
    var f, s1 := obj.path, RemoveSrc(s, obj);
    NoSiblingLess(s.src, s1.src, e);
    DirOfBelow(f, root);
    DotOutside(root);
    if Below(f, e) {
      DirOfBelow(f, e);
      RemoveDirsFrom(s1, Dir(f), root, e);
    } else {
      BesideStays(s.src, f, e);
      if Below(Dir(f), e) { BelowTrans(f, Dir(f), e); }
      RemoveDirsBeside(s1, Dir(f), root, e);
    }
  }

  /** A page index that may be removed: if it is there, it is keyed by its path, a file of the source and not `e`. */
  predicate FileIn(src: OIS, root: string, e: string, q: string) {
    q in src ==> src[q].path == q && Below(q, root) && q != e
  }

  predicate RootsOf(root: string, e: string) {
    Below(e, root) && root != "" && root != "." && e != ""
  }

  lemma RemoveIfFoundKeeps(s: PState, q: string, root: string, e: string)
    requires NotEmptied(s.src, e) && RootsOf(root, e) && FileIn(s.src, root, e, q)
    ensures Shrinks(s.src, RemoveIfFound(s, q, root).src) && NotEmptied(RemoveIfFound(s, q, root).src, e)
  {
    hide RemoveObject, NotEmptied, Below;
    if Find(s.src, q).Some? { RemoveObjectKeeps(s, s.src[q], root, e); }
  }

  predicate BookFiles(src: OIS, root: string, e: string, obj: Obj) {
    && Below(obj.path, root) && obj.path != e
    && FileIn(src, root, e, Supplements(obj.path)[0]) && FileIn(src, root, e, Supplements(obj.path)[1])
  }

  lemma Step7Keeps(cfg: Config, avail: bool, s: PState, obj: Obj, e: string)
    requires NotEmptied(s.src, e) && RootsOf(cfg.source, e) && BookFiles(s.src, cfg.source, e, obj)
    ensures Shrinks(s.src, Step7(cfg, avail, s, obj).src) && NotEmptied(Step7(cfg, avail, s, obj).src, e)
  {
    hide RemoveObject, RemoveIfFound, NotEmptied, Below, Supplements;
    var sup, root := Supplements(obj.path), cfg.source;
    var s1 := RemoveObject(s, obj, root);
    var s2 := RemoveIfFound(s1, sup[0], root);
    RemoveObjectKeeps(s, obj, root, e);
    RemoveIfFoundKeeps(s1, sup[0], root, e);
    RemoveIfFoundKeeps(s2, sup[1], root, e);
  }

  /** From the round `m` on the directory is there only as long as something is in it. */
  lemma {:induction false} Loop7Keeps(cfg: Config, avail: bool, S: OIS, s: PState, objs: OIS, order: seq<string>,
                                      m: nat, e: string)
    requires m <= |order| && RootsOf(cfg.source, e)
    requires forall j :: j in order ==> j in objs
    requires forall j :: 0 <= j < |order| ==> BookFiles(S, cfg.source, e, objs[order[j]])
    requires var t := Loop7(cfg, avail, s, objs, order[..m]).src; NotEmptied(t, e) && Shrinks(S, t)
    ensures var t := Loop7(cfg, avail, s, objs, order).src; NotEmptied(t, e) && Shrinks(S, t)
    decreases |order|
  {
    hide Step7, NotEmptied, Below, Supplements, RootsOf;
    if m == |order| {
      assert order[..m] == order;
    } else {
      var n := |order| - 1;
      var pre := order[..n];
      assert pre[..m] == order[..m];
      forall j | 0 <= j < |pre| ensures BookFiles(S, cfg.source, e, objs[pre[j]]) { assert pre[j] == order[j]; }
      Loop7Keeps(cfg, avail, S, s, objs, pre, m, e);
      assert BookFiles(S, cfg.source, e, objs[order[n]]);
      Step7Keeps(cfg, avail, Loop7(cfg, avail, s, objs, pre), objs[order[n]], e);
    }
  }

  // ---------------------------------------------------------------------------------- the longest one

  lemma {:induction false} Longest(xs: set<string>) returns (e: string)
    requires xs != {}
    ensures e in xs && forall x :: x in xs ==> |x| <= |e|
    decreases |xs|
  {
    var y :| y in xs;
    if xs == {y} {
      e := y;
    } else {
      var z := Longest(xs - {y});
      e := if |z| >= |y| then z else y;
    }
  }

  /** An undecided directory that has a raw sibling itself, and is as long as any undecided one. */
  ghost predicate Last(S: OIS, root: string, R: set<string>, e: string) {
    IsUndecided(S, root, R, e) && forall x :: NotLonger(S, root, R, x, e)
  }

  ghost predicate NotLonger(S: OIS, root: string, R: set<string>, x: string, e: string) {
    IsUndecided(S, root, R, x) ==> |x| <= |e|
  }

  lemma SomeLast(S: OIS, root: string, R: set<string>, d: string) returns (e: string)
    requires IsUndecided(S, root, R, d)
    ensures Last(S, root, R, e)
  {
    hide Pruned, RawFree, SiblingGone;
    var xs := set x | x in S && IsUndecided(S, root, R, x);
    assert d in S by { PrunedIn(S, root, R, d); }
    assert d in xs;
    e := Longest(xs);
    forall x ensures NotLonger(S, root, R, x, e) {
      if IsUndecided(S, root, R, x) {
        PrunedIn(S, root, R, x);
        assert x in xs;
      }
    }
  }

  lemma PrunedIn(S: OIS, root: string, R: set<string>, d: string)
    requires Pruned(S, root, R, d)
    ensures d in S && S[d].dir && Below(d, root)
  {
  }

  /** An emptied directory at whose raw siblings, and those in it, everything goes, and that is longer than the last
      undecided one, has none. */
  lemma LongerIsFree(S: OIS, root: string, R: set<string>, e: string, x: string)
    requires Last(S, root, R, e) && Pruned(S, root, R, x) && |x| > |e| && forall f, k :: SiblingGone(S, R, x, f, k)
    ensures RawFree(S, root, x)
  {
    hide Pruned, RawFree, SiblingGone;
    assert NotLonger(S, root, R, x, e);
  }

  lemma SiblingOfBelow(S: OIS, R: set<string>, d: string, x: string)
    requires (forall f, k :: SiblingGone(S, R, d, f, k)) && AtOrBelow(x, d)
    ensures forall f, k :: SiblingGone(S, R, x, f, k)
  {
    hide Gone, RawSibling;
    forall f, k ensures SiblingGone(S, R, x, f, k) {
      assert SiblingGone(S, R, d, f, k);
      if f != x && x != d && Below(f, x) { BelowTrans(f, x, d); }
    }
  }

  /** The directories in the last undecided one have no raw siblings. */
  lemma BelowIsFree(S: OIS, root: string, R: set<string>, e: string, x: string)
    requires Last(S, root, R, e) && x in S && S[x].dir && Below(x, e) && (forall f :: f in R ==> f in S && !S[f].dir)
    ensures Pruned(S, root, R, x) && RawFree(S, root, x)
  {
    hide RawFree, SiblingGone, HasRemoved, AllGone;
    PrunedBelow(S, root, R, e, x);
    SiblingOfBelow(S, R, e, x);
    LongerIsFree(S, root, R, e, x);
  }

  /** The last undecided directory has a raw sibling itself. */
  lemma LastHasSibling(S: OIS, root: string, R: set<string>, e: string) returns (k: string)
    requires Last(S, root, R, e) && (forall f :: f in R ==> f in S && !S[f].dir)
    ensures RawSibling(S, e, k)
  {
    hide SiblingGone, HasRemoved, AllGone;
    forall x, y | x != e ensures RawBelow(S, root, e, x, y) {
      if Below(x, e) && x in S && S[x].dir {
        BelowIsFree(S, root, R, e, x);
        assert RawBelow(S, root, x, x, y);
      }
    }
    var x, y :| !RawBelow(S, root, e, x, y);
    k := y;
  }

  /** What starts with the text of a raw sibling of `e` is one too. */
  lemma SiblingOfSibling(S: OIS, root: string, e: string, k: string, x: string, y: string)
    requires SourceShape(S, root) && e in S && e != "" && k in S && S[k].dir && RawSibling(S, e, k)
    requires (x == k || Below(x, k)) && SelectedIn(S, y, x)
    ensures RawSibling(S, e, y)
  {
    assert |k| > |e| && k[..|e|] == e;
    assert k[|e|] == '/' ==> Below(k, e);
    PrefixText(x, k, e);
    if S[y].dir {
      PrefixText(y, x, e);
    } else {
      PrefixText(Dir(y), x, e);
      DirPrefix(y);
      PrefixText(y, Dir(y), e);
    }
  }

  /** Text that starts with `x`, which goes on after `e` otherwise than with a slash, is not below `e`. */
  lemma PrefixText(y: string, x: string, e: string)
    requires x <= y && e <= x && |x| > |e|
    ensures e <= y && |y| > |e| && y[|e|] == x[|e|]
  {
    assert y[..|x|] == x;
    assert y[..|e|] == x[..|e|];
  }

  lemma InSibling(S: OIS, root: string, e: string, k: string, y: string)
    requires SourceShape(S, root) && e in S && e != "" && k in S && S[k].dir && RawSibling(S, e, k) && y in S
    requires Below(y, k)
    ensures RawSibling(S, e, y)
  {
    assert SourceAt(S, root, k);
    BelowSelected(S, y, k);
    SiblingOfSibling(S, root, e, k, k, y);
  }

  // ---------------------------------------------------------------------------------- the order that removes it

  /** A removed file that is a raw sibling of `e` goes with a book that has no file in `e`. */
  lemma SiblingBook(i: Inputs, w: World, j: string, f: string, e: string)
    requires WorldOK(i.cfg, w) && ViewsOK(i, w) && SourceShape(i.src, i.cfg.source) && j in Row7(i)
    requires VictimOf(i.cfg.source, j, f)
    requires f in i.src && RawSibling(i.src, e, f) && e in i.src && e != ""
    ensures !HasFileIn(i, j, e)
  {
    hide WorldOK, ViewsOK, Row7, LocalBooks, HistoryBooks, DeviceBooksAt, Supplements, BookPlaces, BookKey, RelClean,
         Below, Dir;
    var root := i.cfg.source;
    Row7NotDevice(i, j);
    LocalBookFacts(i, w, j);
    LocalVictim(i, w, j, f);
    if HasFileIn(i, j, e) {
      var p := At(root, j);
      assert RelClean(j) by { BookClean(j); }
      var dir, sdr := BookDirs(root, j);
      TouchingPlaces(p, Supplements(p)[0], Supplements(p)[1], dir, sdr, e, f);
      FileBeside(i.src, root, e, f);
    }
  }

  lemma BookClean(j: string)
    requires BookKey(j)
    ensures RelClean(j)
  {
  }

  /** The directory of a file that is a raw sibling of `e` is longer than `e` and not in it. */
  lemma FileBeside(S: OIS, root: string, e: string, f: string)
    requires f in S && !S[f].dir && RawSibling(S, e, f) && Below(f, root) && root != ""
    ensures |Dir(f)| > |e| && !Below(Dir(f), e)
  {
    DirOfBelow(f, root);
    if Below(Dir(f), e) { BelowTrans(f, Dir(f), e); }
  }

  /** What goes with the books that have no file in `e`. */
  ghost function Others(i: Inputs, e: string): set<string> {
    RemovedSet(i.src, i.cfg.source, Row7(i) - BooksIn(i, e))
  }

  lemma SiblingFileGone(i: Inputs, b: Subsets, w: World, e: string, f: string)
    requires RunOK(i, b, w) && SourceShape(i.src, i.cfg.source)
    requires f in RemovedSet(i.src, i.cfg.source, Row7(i)) && RawSibling(i.src, e, f) && e in i.src && e != ""
    ensures f in Others(i, e)
  {
    hide RunOK, WorldOK, ViewsOK, Row7, VictimOf, RawSibling, HasFileIn, SourceShape;
    RunParts(i, b, w);
    var j :| j in Row7(i) && VictimOf(i.cfg.source, j, f);
    SiblingBook(i, w, j, f, e);
    assert j in Row7(i) - BooksIn(i, e);
  }

  lemma VictimHasFile(i: Inputs, j: string, e: string, f: string)
    ensures VictimOf(i.cfg.source, j, f) && Below(f, e) ==> HasFileIn(i, j, e)
  {
    hide Supplements, Below;
  }

  lemma InsideNotOthers(i: Inputs, e: string, f: string)
    requires Below(f, e)
    ensures f !in Others(i, e)
  {
    hide Row7, Below, VictimOf, HasFileIn;
    forall j | j in Row7(i) - BooksIn(i, e) ensures !VictimOf(i.cfg.source, j, f) { VictimHasFile(i, j, e, f); }
  }

  lemma OthersLess(i: Inputs, e: string)
    ensures Others(i, e) <= RemovedSet(i.src, i.cfg.source, Row7(i))
  {
    hide Row7, VictimOf, HasFileIn;
  }

  /** What the proof needs of the last undecided directory. */
  ghost predicate LastOf(i: Inputs, e: string) {
    Last(i.src, i.cfg.source, RemovedSet(i.src, i.cfg.source, Row7(i)), e)
  }

  lemma LastIs(i: Inputs, e: string)
    requires LastOf(i, e)
    ensures Pruned(i.src, i.cfg.source, RemovedSet(i.src, i.cfg.source, Row7(i)), e) && e in i.src && i.src[e].dir
    ensures Below(e, i.cfg.source)
    ensures forall k :: RawSibling(i.src, e, k) ==> Gone(i.src, RemovedSet(i.src, i.cfg.source, Row7(i)), k)
  {
    hide RawSibling, Gone, Row7, RemovedSet, RawFree, HasRemoved, AllGone;
    var S, R := i.src, RemovedSet(i.src, i.cfg.source, Row7(i));
    forall k | RawSibling(S, e, k) ensures Gone(S, R, k) { assert SiblingGone(S, R, e, e, k); }
  }

  /** A removed file in a raw sibling of `e`. */
  lemma InSiblingGone(i: Inputs, b: Subsets, w: World, e: string, k: string, f: string)
    requires RunOK(i, b, w) && SourceShape(i.src, i.cfg.source) && e in i.src && e != "" && k in i.src && i.src[k].dir
    requires RawSibling(i.src, e, k)
    requires f in RemovedSet(i.src, i.cfg.source, Row7(i)) && Below(f, k)
    ensures f in Others(i, e)
  {
    hide RunOK, SourceShape, RawSibling, Row7, Others;
    InSibling(i.src, i.cfg.source, e, k, f);
    SiblingFileGone(i, b, w, e, f);
  }

  /** The raw siblings of the last undecided directory are emptied by the books that have no file in it, and have no raw
      siblings. */
  lemma EmptiedByOthers(i: Inputs, b: Subsets, w: World, e: string, k: string)
    requires RunOK(i, b, w) && LastOf(i, e) && SourceShape(i.src, i.cfg.source) && k in i.src && i.src[k].dir
    requires RawSibling(i.src, e, k)
    requires forall f :: f in RemovedSet(i.src, i.cfg.source, Row7(i)) ==> f in i.src && !i.src[f].dir
    ensures Pruned(i.src, i.cfg.source, Others(i, e), k) && RawFree(i.src, i.cfg.source, k)
  {
    hide RunOK, SourceShape, RawSibling, Row7, Others, RemovedSet, Last, Below;
    var S, root, R, O := i.src, i.cfg.source, RemovedSet(i.src, i.cfg.source, Row7(i)), Others(i, e);
    LastIs(i, e);
    assert e != "" by { BelowNotEmpty(e, root); }
    var g :| g in R && Below(g, k);
    InSiblingGone(i, b, w, e, k, g);
    forall y ensures GoneBelow(S, O, k, y) {
      if y in S && Below(y, k) {
        InSibling(S, root, e, k, y);
        if y in R {
          InSiblingGone(i, b, w, e, k, y);
        } else {
          var f :| f in R && Below(f, y);
          BelowTrans(f, y, k);
          InSiblingGone(i, b, w, e, k, f);
        }
      }
    }
    assert AllGone(S, O, k);
    SiblingInside(S, root, e, k);
    OthersLess(i, e);
    PrunedGrows(S, root, O, R, k);
    forall f, y ensures SiblingGone(S, R, k, f, y) {
      if AtOrBelow(f, k) && RawSibling(S, f, y) {
        RawSelected(S, f, y);
        SiblingOfSibling(S, root, e, k, f, y);
      }
    }
    LongerIsFree(S, root, R, e, k) by { LastUnfold(i, e); }
  }

  lemma LastUnfold(i: Inputs, e: string)
    requires LastOf(i, e)
    ensures Last(i.src, i.cfg.source, RemovedSet(i.src, i.cfg.source, Row7(i)), e)
  {
  }

  lemma RawSelected(S: OIS, f: string, y: string)
    requires RawSibling(S, f, y)
    ensures SelectedIn(S, y, f)
  {
  }

  lemma SiblingInside(S: OIS, root: string, e: string, k: string)
    requires SourceShape(S, root) && k in S && S[k].dir && RawSibling(S, e, k) && Below(e, root)
    ensures Below(k, root) && |k| > |e|
  {
    assert SourceAt(S, root, k);
    BelowAsym(e, root);
  }

  /** After those books none of its raw siblings is left. */
  lemma SiblingsGone(i: Inputs, b: Subsets, w: World, e: string, src: OIS)
    requires RunOK(i, b, w) && LastOf(i, e) && SourceShape(i.src, i.cfg.source)
    requires forall f :: f in RemovedSet(i.src, i.cfg.source, Row7(i)) ==> f in i.src && !i.src[f].dir
    requires LocalInv(i.src, i.cfg.source, Others(i, e), src)
    ensures NoSibling(src, e)
  {
    hide RunOK, SourceShape, Row7, Others, RemovedSet, LastOf, DirKept, Pending, Pruned, RawFree, Selected, Below;
    var S, root := i.src, i.cfg.source;
    LastIs(i, e);
    assert e != "" by { BelowNotEmpty(e, root); }
    forall k | RawSibling(S, e, k) ensures k !in src {
      if S[k].dir {
        EmptiedByOthers(i, b, w, e, k);
        PruningExact(S, root, Others(i, e), src, k);
      } else {
        SiblingFileGone(i, b, w, e, k);
        assert FileKept(S, Others(i, e), src, k);
      }
    }
    forall k | k in src ensures !RawSibling(src, e, k) { assert RawSibling(src, e, k) ==> RawSibling(S, e, k); }
  }

  /** The directory itself still has its files then. */
  lemma FilesStill(i: Inputs, e: string, src: OIS)
    requires LastOf(i, e) && LocalInv(i.src, i.cfg.source, Others(i, e), src)
    requires forall f :: f in RemovedSet(i.src, i.cfg.source, Row7(i)) ==> f in i.src && !i.src[f].dir
    ensures HasBelow(src, e)
  {
    hide Row7, Others, RemovedSet, LastOf, DirKept, Pending, RawFree, Below, AllGone;
    LastIs(i, e);
    var f :| f in RemovedSet(i.src, i.cfg.source, Row7(i)) && Below(f, e);
    InsideNotOthers(i, e, f);
    assert FileKept(i.src, Others(i, e), src, f);
  }

  lemma KeysPrefix(o: seq<string>, m: nat, ks: set<string>, first: set<string>)
    requires IsOrder(o, ks) && m <= |o| && forall j :: 0 <= j < |o| ==> (j < m <==> o[j] in first)
    ensures Keys(o[..m]) == ks * first && NoRepeat(o[..m])
  {
    forall k ensures k in Keys(o[..m]) <==> k in ks * first {
      if k in o[..m] {
        var j :| 0 <= j < m && o[..m][j] == k;
        assert o[j] in o;
      }
      if k in ks * first {
        var j :| 0 <= j < |o| && o[j] == k;
        assert o[..m][j] == k;
      }
    }
  }

  /** The local mirror after the first `m` rounds. */
  lemma AfterRounds(i: Inputs, b: Subsets, w: World, o7: seq<string>, m: nat)
    requires RunOK(i, b, w) && Row7(i) != {} && IsOrder(o7, Row7(i)) && m <= |o7| && NoRepeat(o7[..m])
    requires forall k :: k in o7 ==> k in Objs7(i, b)
    ensures var t := Loop7(i.cfg, i.ThumbsAvailable(), i.Start(b.thumbs), Objs7(i, b), o7[..m]).src;
            LocalInv(i.src, i.cfg.source, RemovedSet(i.src, i.cfg.source, Keys(o7[..m])), t) && Shrinks(i.src, t)
  {
    hide RunOK, Case7At, Objs7, Row7, InRow7, Loop7, State7, CtxFor, ThumbsLive;
    var c, order := CtxFor(i, b, w), o7[..m];
    Row7Order(i, b, w);
    DeviceMode(i, b, w);
    CtxForOK(i, b, w);
    CtxInputs(i, b, w);
    ThumbsStart(i, b, w);
    State7Start(c, i.ThumbsAvailable(), b.thumbs);
    forall k | k in order ensures k in Objs7(i, b) && k in i.hst && Objs7(i, b)[k] == i.hst[k] { assert k in o7; }
    forall k | k in Keys(order) ensures Case7At(c, b.thumbs, k) {
      assert k in o7;
      Row7Book(i, b, w, k);
    }
    Loop7State(c, i.ThumbsAvailable(), b.thumbs, i.Start(b.thumbs), Objs7(i, b), order);
    State7Tree(c, i.ThumbsAvailable(), b.thumbs, Keys(order),
        Loop7(i.cfg, i.ThumbsAvailable(), i.Start(b.thumbs), Objs7(i, b), order));
  }

  lemma State7Tree(c: Ctx, avail: bool, thumbs: OIS, done: set<string>, s: PState)
    requires State7(c, avail, thumbs, done, s)
    ensures LocalInv(c.i.src, c.i.cfg.source, RemovedSet(c.i.src, c.i.cfg.source, done), s.src)
    ensures Shrinks(c.i.src, s.src)
  {
    hide Inv, Untouched, ThumbsLive, RemovedSet, DirKept, Pending, FileKept, NamesOf, ThumbPaths;
  }

  lemma Row7Files(i: Inputs, b: Subsets, w: World, j: string, e: string)
    requires RunOK(i, b, w) && j in Row7(i) && e in i.src && i.src[e].dir
    ensures j in i.hst && BookFiles(i.src, i.cfg.source, e, i.hst[j])
  {
    hide RunOK, WorldOK, ViewsOK, Row7, LocalBooks, HistoryBooks, DeviceBooksAt, Supplements, Below;
    RunParts(i, b, w);
    Row7NotDevice(i, j);
    Row7Path(i, w, j);
    LocalBookNotDir(i, j);
    var p := At(i.cfg.source, j);
    Row7FileIn(i, w, j, p, e);
    Row7FileIn(i, w, j, Supplements(p)[0], e);
    Row7FileIn(i, w, j, Supplements(p)[1], e);
  }

  lemma Row7FileIn(i: Inputs, w: World, j: string, q: string, e: string)
    requires WorldOK(i.cfg, w) && ViewsOK(i, w) && j in LocalBooks(i) && VictimOf(i.cfg.source, j, q) && e in i.src
    requires i.src[e].dir
    ensures FileIn(i.src, i.cfg.source, e, q)
  {
    hide WorldOK, ViewsOK, VictimOf, LocalBooks, Below;
    if q in i.src {
      LocalVictim(i, w, j, q);
      LocalPathIs(i, w, q);
    }
  }

  /** In the order that takes the books in it last, the last undecided directory is removed. */
  lemma GoesLast(i: Inputs, b: Subsets, w: World, e: string) returns (s: PState)
    requires RunOK(i, b, w) && SourceShape(i.src, i.cfg.source) && LastOf(i, e) && Row7(i) != {}
    requires forall f :: f in RemovedSet(i.src, i.cfg.source, Row7(i)) ==> f in i.src && !i.src[f].dir
    ensures IsPlan(i, b, s) && NotEmptied(s.src, e)
  {
    hide RunOK, SourceShape, LastOf, BookFiles, IsOrders, IsPlan, IsOrder, FinalState, Objs7, Active7, Row7, Loop7,
         HasFileIn, LocalInv, NoSibling, HasBelow, RemovedSet, Below;
    LastIs(i, e);
    assert RootsOf(i.cfg.source, e) by { ShapeRoots(i.src, i.cfg.source, e); }
    Row7Order(i, b, w);
    var o7, m := FirstOf(Row7(i), Row7(i) - BooksIn(i, e));
    KeysPrefix(o7, m, Row7(i), Row7(i) - BooksIn(i, e));
    assert Keys(o7[..m]) == Row7(i) - BooksIn(i, e);
    OrderKeys(o7, Row7(i));
    AfterRounds(i, b, w, o7, m);
    var s0, objs := i.Start(b.thumbs), Objs7(i, b);
    var t := Loop7(i.cfg, i.ThumbsAvailable(), s0, objs, o7[..m]).src;
    SiblingsGone(i, b, w, e, t);
    FilesStill(i, e, t);
    forall j | 0 <= j < |o7| ensures o7[j] in objs && BookFiles(i.src, i.cfg.source, e, objs[o7[j]]) {
      assert o7[j] in o7;
      Row7Files(i, b, w, o7[j], e);
    }
    Loop7Keeps(i.cfg, i.ThumbsAvailable(), i.src, s0, objs, o7, m, e);
    var o := OrdersFrom(i, b, o7);
    s := FinalState(i, b, o);
    OrdersPlan(i, b, o);
    LocalAfter7(i, b, o, w);
  }

  lemma ShapeRoots(S: OIS, root: string, e: string)
    requires SourceShape(S, root) && Below(e, root)
    ensures RootsOf(root, e)
  {
  }

  /** And nothing is left in it. */
  lemma NothingIn(i: Inputs, e: string, src: OIS)
    requires LastOf(i, e) && LocalInv(i.src, i.cfg.source, RemovedSet(i.src, i.cfg.source, Row7(i)), src)
    requires forall f :: f in RemovedSet(i.src, i.cfg.source, Row7(i)) ==> f in i.src && !i.src[f].dir
    requires SourceShape(i.src, i.cfg.source)
    ensures !HasBelow(src, e)
  {
    hide SourceShape, Row7, RemovedSet, DirKept, Pending, RawFree, Below, Last, HasRemoved;
    var S, root, R := i.src, i.cfg.source, RemovedSet(i.src, i.cfg.source, Row7(i));
    LastIs(i, e);
    forall p | p in S && Below(p, e) ensures p !in src {
      assert GoneBelow(S, R, e, p) && FileKept(S, R, src, p);
      if S[p].dir {
        BelowIsFree(S, root, R, e, p) by { LastUnfold(i, e); }
        PruningExact(S, root, R, src, p);
      }
    }
  }

  // ---------------------------------------------------------------------------------- the theorem

  ghost predicate SameLeft(i: Inputs, b: Subsets, s: PState, t: PState) {
    IsPlan(i, b, s) && IsPlan(i, b, t) ==> s.src == t.src
  }

  /** Each emptied directory goes in every order or stays in every order, if none is undecided. */
  lemma DecidedAlike(i: Inputs, b: Subsets, w: World, s: PState, d: string)
    requires RunOK(i, b, w) && IsPlan(i, b, s) && NoneUndecided(i) && d in i.src && i.src[d].dir
    ensures d in s.src <==>
              !(Pruned(i.src, i.cfg.source, RemovedSet(i.src, i.cfg.source, Row7(i)), d)
              && RawFree(i.src, i.cfg.source, d))
  {
    hide RunOK, IsPlan, Row7, RemovedSet, Exec, HasRemoved, AllGone, RawAt, IsOrders, FinalState, SourceShape, Gone,
         RawSibling, LocalInv, Ended, RawFree;
    var S, root, R := i.src, i.cfg.source, RemovedSet(i.src, i.cfg.source, Row7(i));
    DirectoriesPruned(i, b, s, w, d);
    if Pruned(S, root, R, d) && !RawFree(S, root, d) {
      assert !IsUndecided(S, root, R, d);
      var e, k :| !SiblingGone(S, R, d, e, k);
      RunShape(i, b, w);
      if e != d { BelowTrans(e, d, root); }
      var o := PlanOrders(i, b, s);
      KeptBySibling(i, b, o, w, e, k);
      if e != d {
        PlanEnds(i, b, s, w);
        EndedDevice(i, b, w, s);
        AboveKept(S, root, R, s.src, e, d);
      }
    }
  }

  lemma SourceOf(i: Inputs, b: Subsets, s: PState, w: World)
    requires RunOK(i, b, w) && IsPlan(i, b, s)
    ensures LocalInv(i.src, i.cfg.source, RemovedSet(i.src, i.cfg.source, Row7(i)), s.src)
  {
    hide RunOK, IsPlan, Ended, LocalInv, RemovedSet, Row7;
    PlanEnds(i, b, s, w);
    EndedDevice(i, b, w, s);
  }

  /** If no directory is undecided, two plans leave the same source. */
  lemma SourceIndependent(i: Inputs, b1: Subsets, s1: PState, b2: Subsets, s2: PState, w: World)
    requires RunOK(i, b1, w) && IsPlan(i, b1, s1) && RunOK(i, b2, w) && IsPlan(i, b2, s2) && NoneUndecided(i)
    ensures s1.src == s2.src
  {
    hide RunOK, IsPlan, NoneUndecided, RemovedSet, Row7, RawFree, Pruned, DirKept, Pending;
    var S, R := i.src, RemovedSet(i.src, i.cfg.source, Row7(i));
    SourceOf(i, b1, s1, w);
    SourceOf(i, b2, s2, w);
    forall p ensures p in s1.src <==> p in s2.src {
      assert FileKept(S, R, s1.src, p) && FileKept(S, R, s2.src, p);
      if p in S && S[p].dir {
        DecidedAlike(i, b1, w, s1, p);
        DecidedAlike(i, b2, w, s2, p);
      }
    }
  }

  /** An undecided directory is left by one order and removed by another. */
  lemma TwoOutcomes(i: Inputs, b: Subsets, w: World, d: string) returns (e: string, s: PState, t: PState)
    requires RunOK(i, b, w) && IsUndecided(i.src, i.cfg.source, RemovedSet(i.src, i.cfg.source, Row7(i)), d)
    ensures IsPlan(i, b, s) && IsPlan(i, b, t) && e in s.src && e !in t.src
  {
    hide RunOK, IsPlan, RemovedSet, Row7, RawFree, DirKept, Pending, Last, SiblingGone, RawSibling, SourceShape,
         Blocks, HasBelow, NoSibling, LocalInv, AllGone, Below, WorldOK, ViewsOK;
    var S, root, R := i.src, i.cfg.source, RemovedSet(i.src, i.cfg.source, Row7(i));
    RunShape(i, b, w);
    RunParts(i, b, w);
    var f :| f in R && Below(f, d);
    RemovedFile(i, w, f);
    e := SomeLast(S, root, R, d);
    assert LastOf(i, e);
    LastIs(i, e);
    var k := LastHasSibling(S, root, R, e);
    SiblingBlocks(S, root, e, k);
    s := BlockedStays(i, b, w, e, k);
    t := GoesLast(i, b, w, e);
    SourceOf(i, b, t, w);
    NothingIn(i, e, t.src);
  }

  /** All orders of the loops leave the same source if and only if no directory is undecided: emptied, with a raw
      sibling at it or in it, and all these raw siblings removed as well. */
  lemma OutcomeIndependentIff(i: Inputs, b: Subsets, w: World)
    requires RunOK(i, b, w)
    ensures (forall s, t :: SameLeft(i, b, s, t)) <==> NoneUndecided(i)
  {
    hide RunOK, IsPlan, RemovedSet, Row7, IsUndecided;
    if NoneUndecided(i) {
      forall s, t ensures SameLeft(i, b, s, t) { if IsPlan(i, b, s)
          && IsPlan(i, b, t) { SourceIndependent(i, b, s, b, t, w); } }
    } else {
      var d :| IsUndecided(i.src, i.cfg.source, RemovedSet(i.src, i.cfg.source, Row7(i)), d);
      var e, s, t := TwoOutcomes(i, b, w, d);
      assert !SameLeft(i, b, s, t);
    }
  }
}
