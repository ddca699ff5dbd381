/** Which emptied directories a plan removes: all of them in every order exactly when none has a raw sibling. */
module Pruning {
  import opened Paths
  import opened InfoSet
  import opened Plan
  import opened FileSystem
  import opened WellFormed
  import opened LocalPhase
  import opened Removals
  import opened Copies
  import opened CopyLoop
  import opened Setting
  import opened Decisions
  import opened Outcomes
  import opened Theorems
  import opened Counting

  // ---------------------------------------------------------------------------------- a directory that stays

  /** `k` is a path of the mirror that keeps `d` from being found empty, although it is not in `d`. */
  predicate Blocks(src: OIS, d: string, k: string) {
    d in src && SelectedIn(src, k, d) && !Below(k, d) && |d| < |k| && d != ""
  }

  /** While the books with a file in `d` are removed, `k` blocks; afterwards `d` is there. */
  predicate Stays(src: OIS, d: string, k: string, first: bool) {
    d in src && (first ==> Blocks(src, d, k))
  }

  /** Where the upward recursion may start so that it leaves `d`, and `k` while that is needed. */
  predicate SafeDir(root: string, d: string, k: string, first: bool, dir: string) {
    AtOrBelow(dir, root) && root != "" && !AtOrBelow(dir, if first then k else d)
  }

  predicate SafeFile(root: string, d: string, k: string, first: bool, f: string) {
    f != d && (first ==> f != k) && SafeDir(root, d, k, first, Dir(f))
  }

  predicate Shrinks(s: OIS, t: OIS) {
    forall p :: p in t ==> p in s && t[p] == s[p]
  }

  lemma SafeUp(root: string, d: string, k: string, first: bool, dir: string)
    requires SafeDir(root, d, k, first, dir) && dir != root && d != ""
    ensures SafeDir(root, d, k, first, Dir(dir)) && |Dir(dir)| < |dir|
  {
    var x := if first then k else d;
    DirOfBelow(dir, root);
    if Below(Dir(dir), x) { BelowTrans(dir, Dir(dir), x); }
  }

  lemma StaysDrop(src: OIS, d: string, k: string, first: bool, p: string)
    requires Stays(src, d, k, first) && p != d && (first ==> p != k)
    ensures Stays(Drop(src, p), d, k, first) && Shrinks(src, Drop(src, p))
  {
  }

  lemma {:induction false} RemoveDirsStays(s: PState, dir: string, root: string, d: string, k: string, first: bool)
    requires Stays(s.src, d, k, first) && SafeDir(root, d, k, first, dir) && d != ""
    ensures Stays(RemoveDirs(s, dir, root).src, d, k, first) && Shrinks(s.src, RemoveDirs(s, dir, root).src)
    decreases |dir|
  {
    hide Below, Dir;
    if dir != root && (if dir == "" then s.src == map[] else NothingSelected(s.src, dir)) {
      SafeUp(root, d, k, first, dir);
      assert dir != d;
      var found := Find(s.src, dir);
      if found.Some? { StaysDrop(s.src, d, k, first, dir); }
      var s1 := if found.Some? then s.(acts := s.acts + [Action(Src, Remove, found.value)], src := Drop(s.src, dir))
          else s;
      RemoveDirsStays(s1, Dir(dir), root, d, k, first);
    }
  }

  lemma RemoveObjectStays(s: PState, obj: Obj, root: string, d: string, k: string, first: bool)
    requires Stays(s.src, d, k, first) && SafeFile(root, d, k, first, obj.path) && d != ""
    ensures Stays(RemoveObject(s, obj, root).src, d, k, first) && Shrinks(s.src, RemoveObject(s, obj, root).src)
  {
    hide RemoveDirs, Dir, SafeDir, Blocks;
    StaysDrop(s.src, d, k, first, obj.path);
    RemoveDirsStays(RemoveSrc(s, obj), Dir(obj.path), root, d, k, first);
  }

  /** A page index that may be removed: if it is there, it is keyed by its path and safe to remove. */
  predicate SafeIndex(src: OIS, root: string, d: string, k: string, first: bool, q: string) {
    q in src ==> src[q].path == q && SafeFile(root, d, k, first, q)
  }

  lemma RemoveIfFoundStays(s: PState, q: string, root: string, d: string, k: string, first: bool)
    requires Stays(s.src, d, k, first) && SafeIndex(s.src, root, d, k, first, q) && d != ""
    ensures Stays(RemoveIfFound(s, q, root).src, d, k, first) && Shrinks(s.src, RemoveIfFound(s, q, root).src)
  {
    hide RemoveObject, SafeFile, Blocks;
    if Find(s.src, q).Some? { RemoveObjectStays(s, s.src[q], root, d, k, first); }
  }

  predicate SafeBook(src: OIS, root: string, d: string, k: string, first: bool, obj: Obj) {
    && SafeFile(root, d, k, first, obj.path)
    && SafeIndex(src, root, d, k, first, Supplements(obj.path)[0])
       && SafeIndex(src, root, d, k, first, Supplements(obj.path)[1])
  }

  lemma Step7Stays(cfg: Config, avail: bool, s: PState, obj: Obj, d: string, k: string, first: bool)
    requires Stays(s.src, d, k, first) && SafeBook(s.src, cfg.source, d, k, first, obj) && d != ""
    ensures Stays(Step7(cfg, avail, s, obj).src, d, k, first) && Shrinks(s.src, Step7(cfg, avail, s, obj).src)
  {
    hide RemoveObject, RemoveIfFound, SafeFile, Blocks, Supplements;
    var sup, root := Supplements(obj.path), cfg.source;
    var s1 := RemoveObject(s, obj, root);
    var s2 := RemoveIfFound(s1, sup[0], root);
    RemoveObjectStays(s, obj, root, d, k, first);
    RemoveIfFoundStays(s1, sup[0], root, d, k, first);
    RemoveIfFoundStays(s2, sup[1], root, d, k, first);
  }

  /** The first `m` books of the order are those with a file in `d`: then `d` stays. */
  lemma {:induction false} Loop7Stays(cfg: Config, avail: bool, s: PState, objs: OIS, order: seq<string>, m: nat,
                                      d: string, k: string)
    requires Stays(s.src, d, k, true) && d != ""
    requires forall j :: j in order ==> j in objs
    requires forall j :: 0 <= j < |order| ==> SafeBook(s.src, cfg.source, d, k, j < m, objs[order[j]])
    ensures var t := Loop7(cfg, avail, s, objs, order); Stays(t.src, d, k, |order| <= m) && Shrinks(s.src, t.src)
    decreases |order|
  {
    hide Step7, SafeFile, Blocks, Supplements;
    if order != [] {
      var n := |order| - 1;
      var pre := order[..n];
      forall j | 0 <= j < |pre| ensures SafeBook(s.src, cfg.source, d, k, j < m, objs[pre[j]]) {
        assert pre[j] == order[j];
      }
      Loop7Stays(cfg, avail, s, objs, pre, m, d, k);
      var t := Loop7(cfg, avail, s, objs, pre);
      assert SafeBook(s.src, cfg.source, d, k, n < m, objs[order[n]]);
      Step7Stays(cfg, avail, t, objs[order[n]], d, k, n < m);
    }
  }

  // ---------------------------------------------------------------------------------- the files of one book

  /** The book and the index beside it are in `dir`, the other index in `sdr`, a folder of `dir`. */
  predicate BookPlaces(p: string, q0: string, q1: string, dir: string, sdr: string) {
    Dir(p) == dir && Dir(q0) == dir && Dir(q1) == sdr && Below(p, dir) && Below(q0, dir) && Below(q1, sdr)
        && Below(sdr, dir)
  }

  lemma PlacesIn(dir: string, f: string) returns (sdr: string)
    requires RootPath(dir) && CleanPart(f)
    ensures BookPlaces(At(dir, f), Supplements(At(dir, f))[0], Supplements(At(dir, f))[1], dir, sdr)
  {
    hide Stem, Ext, Supplements;
    var base := Stem(f);
    StemPlain(f);
    SupplementsOf(dir, f);
    assert |base + ".apnx"| > 2 && |base + ".sdr"| > 2;
    sdr := Join(dir, base + ".sdr");
    DirJoin(dir, f);
    DirJoin(dir, base + ".apnx");
    DirJoin(dir, base + ".sdr");
    DirJoin(sdr, base + ".apnx");
  }

  lemma BookDirs(root: string, k: string) returns (dir: string, sdr: string)
    requires RootPath(root) && RelClean(k)
    ensures BookPlaces(At(root, k), Supplements(At(root, k))[0], Supplements(At(root, k))[1], dir, sdr)
    ensures AtOrBelow(dir, root) && AtOrBelow(sdr, root)
  {
    hide Supplements, BookPlaces, RelClean;
    RelCleanDir(k);
    DirAt(root, k);
    dir := Dir(At(root, k));
    if Dir(k) != "." {
      AtAssoc(root, Dir(k), Base(k));
      RelCleanEnds(Dir(k));
      RootAt(root, Dir(k));
    }
    assert At(root, k) == At(dir, Base(k));
    sdr := PlacesIn(dir, Base(k));
    assert Below(sdr, dir) by {
      PlacesSdr(At(root, k), Supplements(At(root, k))[0], Supplements(At(root, k))[1], dir, sdr);
    }
    if dir != root { BelowTrans(sdr, dir, root); }
  }

  lemma PlacesSdr(p: string, q0: string, q1: string, dir: string, sdr: string)
    requires BookPlaces(p, q0, q1, dir, sdr)
    ensures Below(sdr, dir)
  {
  }

  /** Some file of the book is in `d`. */
  predicate TouchesDir(p: string, q0: string, q1: string, d: string) {
    Below(p, d) || Below(q0, d) || Below(q1, d)
  }

  /** If some file of a book is in `d`, the others are in `d` too or in a directory no longer than `d`. */
  lemma TouchingPlaces(p: string, q0: string, q1: string, dir: string, sdr: string, d: string, f: string)
    requires BookPlaces(p, q0, q1, dir, sdr) && TouchesDir(p, q0, q1, d) && d != "" && f in {p, q0, q1}
    ensures |Dir(f)| <= |d| || Below(Dir(f), d)
  {
    hide Dir;
    if Below(p, d) { AncestorOfDir(p, d); }
    if Below(q0, d) { AncestorOfDir(q0, d); }
    if Below(q1, d) {
      AncestorOfDir(q1, d);
      if d != sdr { AncestorOfSdr(sdr, dir, d); }
    }
    if Below(dir, d) { BelowTrans(sdr, dir, d); }
  }

  lemma AncestorOfSdr(sdr: string, dir: string, d: string)
    requires Below(sdr, dir) && Below(sdr, d)
    ensures |dir| <= |d| || Below(dir, d)
  {
    Comparable(sdr, dir, d);
  }

  /** A file of the source is not the sibling that blocks `d` if its directory is no longer than `d`. */
  lemma NotBlocker(S: OIS, root: string, d: string, k: string, f: string)
    requires SourceShape(S, root) && Blocks(S, d, k) && S[d].dir && Below(d, root) && f in S && !S[f].dir && f != root
    requires Below(Dir(f), d) || |Dir(f)| <= |d|
    ensures f != k && f != d && !AtOrBelow(Dir(f), k)
  {
    assert SourceAt(S, root, f);
    DirOfBelow(f, root);
    if Below(Dir(f), d) {
      BelowTrans(f, Dir(f), d);
      if Below(Dir(f), k) { Comparable(Dir(f), d, k); }
    }
  }

  lemma SafeVictim(i: Inputs, w: World, j: string, q: string, d: string, k: string)
    requires WorldOK(i.cfg, w) && ViewsOK(i, w) && SourceShape(i.src, i.cfg.source) && j in LocalBooks(i)
    requires VictimOf(i.cfg.source, j, q) && q in i.src
    requires Blocks(i.src, d, k) && i.src[d].dir && Below(d, i.cfg.source)
    ensures var p := At(i.cfg.source, j);
            && i.src[q].path == q
            && SafeFile(i.cfg.source, d, k, TouchesDir(p, Supplements(p)[0], Supplements(p)[1], d), q)
  {
    hide WorldOK, ViewsOK, SourceShape, LocalBooks, Supplements, BookPlaces, RelClean, Blocks, Below, Dir, LastIndex,
         RootPath;
    var root, p := i.cfg.source, At(i.cfg.source, j);
    LocalBookFacts(i, w, j);
    LocalVictim(i, w, j, q);
    SafeVictimShape(i, root, j, q, d, k);
    LocalPathIs(i, w, q);
  }

  lemma LocalPathIs(i: Inputs, w: World, q: string)
    requires ViewsOK(i, w) && q in i.src
    ensures i.src[q].path == q
  {
    assert LocalObject(i.src, w.local, q);
  }

  lemma SafeVictimShape(i: Inputs, root: string, j: string, q: string, d: string, k: string)
    requires SourceShape(i.src, root) && RelClean(j) && VictimOf(root, j, q) && q in i.src && !i.src[q].dir
    requires Below(q, root)
    requires Blocks(i.src, d, k) && i.src[d].dir && Below(d, root)
    ensures var p := At(root, j); SafeFile(root, d, k, TouchesDir(p, Supplements(p)[0], Supplements(p)[1], d), q)
  {
    hide SourceShape, Supplements, RelClean, Blocks, Below, Dir, LastIndex;
    var p := At(root, j);
    var q0, q1 := Supplements(p)[0], Supplements(p)[1];
    assert RootPath(root) && d != "" by { ShapeRoot(i.src, root, d, k); }
    var dir, sdr := BookDirs(root, j);
    DirOfBelow(q, root);
    if TouchesDir(p, q0, q1, d) {
      TouchingPlaces(p, q0, q1, dir, sdr, d, q);
      BelowAsym(q, root);
      NotBlocker(i.src, root, d, k, q);
    } else if AtOrBelow(Dir(q), d) {
      if Dir(q) != d { BelowTrans(q, Dir(q), d); }
    }
  }

  lemma ShapeRoot(S: OIS, root: string, d: string, k: string)
    requires SourceShape(S, root) && Blocks(S, d, k)
    ensures RootPath(root) && d != ""
  {
  }

  // ---------------------------------------------------------------------------------- orders

  lemma {:induction false} SomeOrder(ks: set<string>) returns (o: seq<string>)
    ensures IsOrder(o, ks)
    decreases |ks|
  {
    if ks == {} {
      o := [];
    } else {
      var k :| k in ks;
      var rest := SomeOrder(ks - {k});
      o := rest + [k];
      assert forall j :: j in o <==> j in rest || j == k;
    }
  }

  /** The loops can be walked in some order, whatever the order of the first. */
  lemma OrdersFrom(i: Inputs, b: Subsets, o7: seq<string>) returns (o: Orders)
    requires Active7(i, b) ==> IsOrder(o7, Objs7(i, b).Keys)
    ensures IsOrders(i, b, o) && o.o7 == o7
  {
    hide IsOrder, Objs7, Objs6, Objs3, Loop7, Loop6, Active6;
    var s7 := After7(i, b, Orders(o7, [], []));
    var o6 := SomeOrder(Objs6(i, b, s7).Keys);
    var s6 := After6(i, b, Orders(o7, o6, []), s7);
    var o3 := SomeOrder(Objs3(i, b, s7, s6).Keys);
    o := Orders(o7, o6, o3);
    assert After7(i, b, o) == s7 && After6(i, b, o, s7) == s6;
  }

  /** PrepareActions ends in some state. */
  lemma SomePlan(i: Inputs, b: Subsets) returns (s: PState)
    ensures IsPlan(i, b, s)
  {
    hide IsOrders, IsPlan, IsOrder, FinalState, Active7;
    var o7 := SomeOrder(Objs7(i, b).Keys);
    var o := OrdersFrom(i, b, o7);
    OrdersPlan(i, b, o);
    s := FinalState(i, b, o);
  }

  /** Some file that goes with the book is in `d`. */
  ghost predicate HasFileIn(i: Inputs, j: string, d: string) {
    var p := At(i.cfg.source, j);
    TouchesDir(p, Supplements(p)[0], Supplements(p)[1], d)
  }

  /** An order that starts with the keys of `first`. */
  lemma FirstOf(ks: set<string>, first: set<string>) returns (o: seq<string>, m: nat)
    ensures IsOrder(o, ks) && m <= |o| && forall j :: 0 <= j < |o| ==> (j < m <==> o[j] in first)
  {
    var x := SomeOrder(ks * first);
    var y := SomeOrder(ks - first);
    o, m := x + y, |x|;
    assert forall j :: j in o <==> j in x || j in y;
    forall j | 0 <= j < |o| ensures j < m <==> o[j] in first {
      if j < m { assert o[j] in x; } else { assert o[j] == y[j - |x|] && o[j] in y; }
    }
    forall j, k | 0 <= j < k < |o| ensures o[j] != o[k] {
      if j < m { assert o[j] in x; }
      if k >= m { assert o[k] == y[k - |x|] && o[k] in y; }
    }
  }

  /** The books of row 7 that have a file in `d`. */
  ghost function BooksIn(i: Inputs, d: string): set<string> { set j | j in Row7(i) && HasFileIn(i, j, d) }

  /** An order that starts with the books that have a file in `d`. */
  lemma FirstIn(i: Inputs, d: string) returns (o: seq<string>, m: nat)
    ensures IsOrder(o, Row7(i)) && forall j :: 0 <= j < |o| ==> (j < m <==> HasFileIn(i, o[j], d))
  {
    hide Row7, HasFileIn;
    o, m := FirstOf(Row7(i), BooksIn(i, d));
    assert forall j :: 0 <= j < |o| ==> o[j] in o;
  }

  lemma SafeVictimIn(i: Inputs, w: World, j: string, q: string, d: string, k: string)
    requires WorldOK(i.cfg, w) && ViewsOK(i, w) && SourceShape(i.src, i.cfg.source) && j in LocalBooks(i)
    requires VictimOf(i.cfg.source, j, q)
    requires Blocks(i.src, d, k) && i.src[d].dir && Below(d, i.cfg.source)
    ensures SafeIndex(i.src, i.cfg.source, d, k, HasFileIn(i, j, d), q)
  {
    hide WorldOK, ViewsOK, SourceShape, LocalBooks, Supplements, Blocks, Below, VictimOf, TouchesDir, SafeFile;
    if q in i.src { SafeVictim(i, w, j, q, d, k); }
  }

  lemma SafeRow7(i: Inputs, b: Subsets, w: World, j: string, d: string, k: string)
    requires RunOK(i, b, w) && SourceShape(i.src, i.cfg.source) && j in Row7(i)
    requires Blocks(i.src, d, k) && i.src[d].dir && Below(d, i.cfg.source)
    ensures j in i.hst && SafeBook(i.src, i.cfg.source, d, k, HasFileIn(i, j, d), i.hst[j])
  {
    hide RunOK, WorldOK, ViewsOK, SourceShape, Row7, LocalBooks, HistoryBooks, DeviceBooksAt, Supplements, Blocks,
         Below, SafeFile, HasFileIn;
    RunParts(i, b, w);
    Row7NotDevice(i, j);
    Row7Path(i, w, j);
    var p := At(i.cfg.source, j);
    LocalBookNotDir(i, j);
    SafeVictimIn(i, w, j, p, d, k);
    SafeVictimIn(i, w, j, Supplements(p)[0], d, k);
    SafeVictimIn(i, w, j, Supplements(p)[1], d, k);
  }

  lemma Row7Path(i: Inputs, w: World, j: string)
    requires ViewsOK(i, w) && j in HistoryBooks(i)
    ensures j in i.hst && i.hst[j].path == At(i.cfg.source, j)
  {
    assert HistoryAt(i.cfg, i.hst, j);
  }

  /** Nothing after the first loop changes the local mirror. */
  lemma LocalAfter7(i: Inputs, b: Subsets, o: Orders, w: World)
    requires RunOK(i, b, w) && IsOrders(i, b, o)
    ensures FinalState(i, b, o).src == After7(i, b, o).src
  {
    hide RunOK, Ready7, Ready6, Copied3, Objs3, Row3, Row7, FilesLeft, IsOrder, Active7, Active6, After7, After6,
         State3, Device6Tree, CtxFor;
    var s7 := After7(i, b, o);
    var s6 := After6(i, b, o, s7);
    After6Is(i, b, o, w);
    Loop3Is(i, b, o, w, s7, s6);
    State6Shrinks(i, b, w, s7, s6);
    Copied3Src(i, b, w, s6.src, FinalState(i, b, o));
  }

  lemma Copied3Src(i: Inputs, b: Subsets, w: World, src: OIS, s: PState)
    requires Copied3(CtxFor(i, b, w), Row7(i), i.ThumbsAvailable(), src, Device6Tree(i, b, w), Row3(i), s)
    ensures s.src == src
  {
    hide State3, JobRels, JobNames, Row3, Row7, Device6Tree, CtxFor;
    State3Src(CtxFor(i, b, w), Row7(i), src, Device6Tree(i, b, w), JobRels(src, CtxFor(i, b, w).i.cfg.source, Row3(i)),
              JobNames(CtxFor(i, b, w).i, i.ThumbsAvailable(), src, Row3(i)), s);
  }

  lemma Row7Order(i: Inputs, b: Subsets, w: World)
    requires RunOK(i, b, w) && Row7(i) != {}
    ensures Active7(i, b) && Objs7(i, b).Keys == Row7(i) && forall j :: j in Objs7(i, b) ==>
              j in i.hst && Objs7(i, b)[j] == i.hst[j]
  {
    hide RunOK, Row7, Objs7, InRow7, Active7;
    Active7Is(i, b, w);
    Objs7Keys(i, b, w);
  }

  /** If a local path merely starts with the text of `d`, then in the order that takes the books in `d` first, `d`
      stays. */
  lemma BlockedStays(i: Inputs, b: Subsets, w: World, d: string, k: string) returns (s: PState)
    requires RunOK(i, b, w) && SourceShape(i.src, i.cfg.source) && Row7(i) != {}
    requires Blocks(i.src, d, k) && i.src[d].dir && Below(d, i.cfg.source)
    ensures IsPlan(i, b, s) && d in s.src
  {
    hide RunOK, SourceShape, Blocks, SafeBook, IsOrders, IsPlan, IsOrder, FinalState, Objs7, Active7, Row7, Loop7,
         HasFileIn, Supplements, Below;
    Row7Order(i, b, w);
    var o7, m := FirstIn(i, d);
    var o := OrdersFrom(i, b, o7);
    s := FinalState(i, b, o);
    OrdersPlan(i, b, o);
    LocalAfter7(i, b, o, w);
    var s0, objs := i.Start(b.thumbs), Objs7(i, b);
    OrderKeys(o7, Row7(i));
    forall j | 0 <= j < |o7| ensures o7[j] in objs && SafeBook(s0.src, i.cfg.source, d, k, j < m, objs[o7[j]]) {
      assert o7[j] in o7;
      SafeRow7(i, b, w, o7[j], d, k);
    }
    assert Stays(s0.src, d, k, true) && d != "" by { BlocksIn(i.src, d, k); }
    Loop7Stays(i.cfg, i.ThumbsAvailable(), s0, objs, o7, m, d, k);
  }

  lemma BlocksIn(src: OIS, d: string, k: string)
    requires Blocks(src, d, k)
    ensures Stays(src, d, k, true) && d in src && d != ""
  {
  }

  // ---------------------------------------------------------------------------------- the theorem

  /** What is above a path of the mirror, up to the source, is in the mirror. */
  lemma {:induction false} AboveKept(S: OIS, root: string, R: set<string>, src: OIS, e: string, d: string)
    requires SourceShape(S, root) && LocalInv(S, root, R, src) && e in src && Below(e, d) && AtOrBelow(d, root)
    ensures d in src
    decreases |e|
  {
    hide SourceAt, Below, Dir, FileKept, Pending;
    assert DirKept(S, root, R, src, e);
    if d != root { BelowTrans(e, d, root); }
    BelowAsym(e, root);
    assert d != "" by { AboveNotEmpty(d, root); }
    DirOfBelow(e, d);
    if Dir(e) != d { AboveKept(S, root, R, src, Dir(e), d); }
  }

  lemma AboveNotEmpty(d: string, root: string)
    requires AtOrBelow(d, root) && root != ""
    ensures d != ""
  {
  }

  ghost predicate GoneAfter(i: Inputs, b: Subsets, w: World, d: string, s: PState) {
    IsPlan(i, b, s) ==> d !in Exec(w, s.acts).world.local
  }

  ghost predicate GoneInEveryOrder(i: Inputs, b: Subsets, w: World, d: string) {
    forall s :: GoneAfter(i, b, w, d, s)
  }

  /** The local directories after a plan: none is gone but what the removed files empty, and the emptied ones without
      raw siblings at or below them are. */
  lemma DirectoriesPruned(i: Inputs, b: Subsets, s: PState, w: World, d: string)
    requires RunOK(i, b, w) && IsPlan(i, b, s) && d in i.src && i.src[d].dir
    ensures var R, left := RemovedSet(i.src, i.cfg.source, Row7(i)), Exec(w, s.acts).world.local;
            && (d in left <==> d in s.src)
            && (d !in left ==> Pruned(i.src, i.cfg.source, R, d))
            && (RawFree(i.src, i.cfg.source, d) ==> (d !in left <==> Pruned(i.src, i.cfg.source, R, d)))
  {
    hide RunOK, Ended, IsPlan, Row7, RemovedSet, Exec, LocalInv, Pruned, RawFree, SourceShape;
    PlanEnds(i, b, s, w);
    EndedShape(i, b, w, s);
    EndedDevice(i, b, w, s);
    EndedLocal(i, b, w, s);
    PruningExact(i.src, i.cfg.source, RemovedSet(i.src, i.cfg.source, Row7(i)), s.src, d);
  }

  /** What the proof below needs of the source. */
  lemma RunShape(i: Inputs, b: Subsets, w: World)
    requires RunOK(i, b, w)
    ensures SourceShape(i.src, i.cfg.source) && forall f :: f in RemovedSet(i.src, i.cfg.source, Row7(i)) ==>
              f in i.src && !i.src[f].dir
  {
    hide RunOK, Row7, WorldOK, ViewsOK, VictimOf, LocalBooks, SourceShape, RemovedSet;
    RunParts(i, b, w);
    CtxForOK(i, b, w);
    CtxInputs(i, b, w);
    SourceIsTree(CtxFor(i, b, w));
    forall f | f in RemovedSet(i.src, i.cfg.source, Row7(i)) ensures f in i.src && !i.src[f].dir {
      RemovedFile(i, w, f);
    }
  }

  lemma RemovedFile(i: Inputs, w: World, f: string)
    requires WorldOK(i.cfg, w) && ViewsOK(i, w) && f in RemovedSet(i.src, i.cfg.source, Row7(i))
    ensures f in i.src && !i.src[f].dir && Row7(i) != {}
  {
    hide WorldOK, ViewsOK, Row7, VictimOf, LocalBooks;
    var k :| k in Row7(i) && VictimOf(i.cfg.source, k, f);
    Row7NotDevice(i, k);
    LocalVictim(i, w, k, f);
  }

  /** A raw sibling of an emptied directory, or of one below it, keeps it in some order. */
  lemma RawKeeps(i: Inputs, b: Subsets, w: World, d: string, e: string, k: string) returns (s: PState)
    requires RunOK(i, b, w) && Pruned(i.src, i.cfg.source, RemovedSet(i.src, i.cfg.source, Row7(i)), d)
    requires AtOrBelow(e, d) && !RawAt(i.src, i.cfg.source, e, k)
    ensures IsPlan(i, b, s) && d in s.src
  {
    hide RunOK, WorldOK, ViewsOK, Ended, IsPlan, Row7, RemovedSet, AllGone, Below, Dir, LocalInv;
    var S, root, R := i.src, i.cfg.source, RemovedSet(i.src, i.cfg.source, Row7(i));
    RunShape(i, b, w);
    RunParts(i, b, w);
    var f :| f in R && Below(f, d);
    RemovedFile(i, w, f);
    assert Blocks(S, e, k) by {
      assert SourceAt(S, root, e);
      SelectedNotShort(S, k, e);
      BelowAsym(e, root);
    }
    s := BlockedStays(i, b, w, e, k);
    if e != d {
      PlanEnds(i, b, s, w);
      EndedDevice(i, b, w, s);
      AboveKept(S, root, R, s.src, e, d);
    }
  }

  /** A directory of the source is removed in every order of the loops if and only if the removed files empty it and no
      local path merely starts with its text, or with the text of a directory in it. */
  lemma RemovedInEveryOrder(i: Inputs, b: Subsets, w: World, d: string)
    requires RunOK(i, b, w) && d in i.src && i.src[d].dir
    ensures GoneInEveryOrder(i, b, w, d)
            <==> Pruned(i.src, i.cfg.source, RemovedSet(i.src, i.cfg.source, Row7(i)), d)
                 && RawFree(i.src, i.cfg.source, d)
  {
    hide RunOK, IsPlan, Row7, RemovedSet, Exec, Pruned, RawAt;
    var S, root, R := i.src, i.cfg.source, RemovedSet(i.src, i.cfg.source, Row7(i));
    if Pruned(S, root, R, d) && RawFree(S, root, d) {
      forall s ensures GoneAfter(i, b, w, d, s) { if IsPlan(i, b, s) { DirectoriesPruned(i, b, s, w, d); } }
    } else {
      var s;
      if !Pruned(S, root, R, d) {
        s := SomePlan(i, b);
      } else {
        var e, k :| !RawBelow(S, root, d, e, k);
        s := RawKeeps(i, b, w, d, e, k);
      }
      DirectoriesPruned(i, b, s, w, d);
      assert !GoneAfter(i, b, w, d, s);
    }
  }

  /** No local path merely starts with the text of a directory that the removals of row 7 empty. */
  ghost predicate NoRawSiblingEmptied(i: Inputs) {
    NoRawEmptied(i.src, i.cfg.source, RemovedSet(i.src, i.cfg.source, Row7(i)))
  }

  ghost predicate EmptiedGoes(i: Inputs, b: Subsets, w: World, d: string) {
    Pruned(i.src, i.cfg.source, RemovedSet(i.src, i.cfg.source, Row7(i)), d) ==> GoneInEveryOrder(i, b, w, d)
  }

  /** Every order of the loops removes all emptied directories if and only if no local path merely starts with the text
      of an emptied directory. */
  lemma EveryOrderPrunes(i: Inputs, b: Subsets, w: World)
    requires RunOK(i, b, w)
    ensures (forall d :: EmptiedGoes(i, b, w, d)) <==> NoRawSiblingEmptied(i)
  {
    hide RunOK, Row7, RemovedSet, GoneInEveryOrder, RawAt, SourceShape, HasRemoved, AllGone;
    var S, root, R := i.src, i.cfg.source, RemovedSet(i.src, i.cfg.source, Row7(i));
    RunShape(i, b, w);
    if NoRawSiblingEmptied(i) {
      forall d ensures EmptiedGoes(i, b, w, d) {
        if Pruned(S, root, R, d) {
          EmptiedRawFree(S, root, R, d);
          RemovedInEveryOrder(i, b, w, d);
        }
      }
    } else {
      var d, k :| !RawEmptied(S, root, R, d, k);
      assert !RawBelow(S, root, d, d, k);
      RemovedInEveryOrder(i, b, w, d);
      assert !EmptiedGoes(i, b, w, d);
    }
  }
}
