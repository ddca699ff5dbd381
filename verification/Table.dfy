/** The decision table of sync/prepare.go on the books of a file system, and the theorem that a run of the plan
    changes the books by exactly that table. */
module Table {
  import opened Paths
  import opened InfoSet
  import opened Plan
  import opened FileSystem
  import opened WellFormed
  import opened Invariant
  import opened LocalPhase
  import opened Removals
  import opened DeviceRemovals
  import opened Copies
  import opened CopyLoop
  import opened Setting
  import opened Decisions
  import opened Outcomes

  /** Books by relative path, with their contents. */
  type Library = map<string, string>

  /** `lib` has the book `k` exactly if it lies below `root`, and then with its content. */
  ghost predicate LibraryAt(cfg: Config, t: Tree, root: string, lib: Library, k: string) {
    && (k in lib <==> BookAt(cfg, t, At(root, k)))
    && (BookAt(cfg, t, At(root, k)) ==> k in lib && lib[k] == t[At(root, k)].content)
  }

  ghost predicate IsLibrary(cfg: Config, t: Tree, root: string, lib: Library) {
    forall k :: LibraryAt(cfg, t, root, lib, k)
  }

  lemma LibraryExists(cfg: Config, t: Tree, root: string)
    ensures exists lib :: IsLibrary(cfg, t, root, lib)
  {
    hide Ext, Base;
    var ks := set p | p in t && Below(p, root) && BookAt(cfg, t, p) :: Rel(p, root);
    forall k ensures k in ks <==> BookAt(cfg, t, At(root, k)) {
      if k in ks {
        var p :| p in t && Below(p, root) && BookAt(cfg, t, p) && Rel(p, root) == k;
        AtRel(p, root);
      }
      if BookAt(cfg, t, At(root, k)) { assert Below(At(root, k), root); }
    }
    var lib: Library := map k | k in ks :: t[At(root, k)].content;
    forall k ensures LibraryAt(cfg, t, root, lib, k) {}
    assert IsLibrary(cfg, t, root, lib);
  }

  /** The books below `root` in a file system. */
  ghost function TreeBooks(cfg: Config, t: Tree, root: string): (r: Library)
    ensures IsLibrary(cfg, t, root, r)
  {
    LibraryExists(cfg, t, root);
    var r :| IsLibrary(cfg, t, root, r);
    r
  }

  /** The books recorded in a history, with their hashes. */
  function RecordedBooks(cfg: Config, hst: OIS): Library {
    map k | k in hst && IsBook(cfg, hst[k]) :: hst[k].pid
  }

  // ---------------------------------------------------------------------------------- the table

  /** Row 7, `+ + -`: removed from the device, unless such removals are ignored. */
  function RemoveLocal(L: Library, H: Library, D: Library, ignoring: bool): set<string> {
    if ignoring then {} else (L.Keys * H.Keys) - D.Keys
  }

  /** Row 6, `- + +`: removed locally. */
  function RemoveDevice(L: Library, H: Library, D: Library): set<string> {
    (H.Keys * D.Keys) - L.Keys
  }

  /** Row 3, `+ - -`, row 7 when removals are ignored, and the books of row 8 that changed. */
  function CopyOver(L: Library, H: Library, D: Library, ignoring: bool): set<string> {
    set k | k in L && k !in RemoveLocal(L, H, D, ignoring) && (k !in D || (k in H && H[k] != L[k]))
  }

  function NewLocal(L: Library, H: Library, D: Library, ignoring: bool): Library {
    L - RemoveLocal(L, H, D, ignoring)
  }

  function NewDevice(L: Library, H: Library, D: Library, ignoring: bool): Library {
    (D - RemoveDevice(L, H, D)) + (map k | k in CopyOver(L, H, D, ignoring) :: L[k])
  }

  /** The table read column by column: where a book is after a run, from where it was and where it was recorded.  What
      is saved is then the local column, so a book in the history alone (row 5) is forgotten. */
  lemma ColumnsAfter(L: Library, H: Library, D: Library, ignoring: bool, k: string)
    ensures var l, h, d := k in L, k in H, k in D;
            && (k in NewLocal(L, H, D, ignoring) <==> l && (d || !h || ignoring))
            && (k in NewDevice(L, H, D, ignoring) <==> (l && (d || !h || ignoring)) || (!l && d && !h))
    ensures RemoveLocal(L, H, D, ignoring) !! RemoveDevice(L, H, D) !! CopyOver(L, H, D, ignoring)
  {
    hide RemoveLocal, RemoveDevice;
    assert k in RemoveLocal(L, H, D, ignoring) <==> !ignoring && k in L && k in H && k !in D by {
      LocalClass(L, H, D, ignoring, k);
    }
    assert k in RemoveDevice(L, H, D) <==> k in H && k in D && k !in L by { DeviceClass(L, H, D, k); }
    forall j ensures !(j in RemoveLocal(L, H, D, ignoring) && j in RemoveDevice(L, H, D)) {
      LocalClass(L, H, D, ignoring, j);
      DeviceClass(L, H, D, j);
    }
    forall j ensures !(j in RemoveDevice(L, H, D) && j in CopyOver(L, H, D, ignoring)) { DeviceClass(L, H, D, j); }
  }

  lemma LocalClass(L: Library, H: Library, D: Library, ignoring: bool, k: string)
    ensures k in RemoveLocal(L, H, D, ignoring) <==> !ignoring && k in L && k in H && k !in D
  {
  }

  lemma DeviceClass(L: Library, H: Library, D: Library, k: string)
    ensures k in RemoveDevice(L, H, D) <==> k in H && k in D && k !in L
  {
  }

  // ---------------------------------------------------------------------------------- rows of trees and of views

  ghost function L0(i: Inputs, w: World): Library { TreeBooks(i.cfg, w.local, i.cfg.source) }
  function H0(i: Inputs): Library { RecordedBooks(i.cfg, i.hst) }
  ghost function D0(i: Inputs, w: World): Library { TreeBooks(i.cfg, w.device, i.cfg.target) }

  lemma LocalColumn(i: Inputs, w: World, k: string)
    requires WorldOK(i.cfg, w) && ViewsOK(i, w)
    ensures k in LocalBooks(i) <==> k in L0(i, w)
    ensures k in LocalBooks(i) ==> LocalBooks(i)[k].pid == L0(i, w)[k]
  {
    hide LocalTree, DeviceTree, Compatible, SupplementsAreFiles, CrossIndexes, ThumbNamesOK, DeviceView, HistoryView,
         OwnObjects, NoRawKeys, RelClean, Ext, Base, TreeBooks;
    BookIn(i.cfg, w.local, i.cfg.source, k);
    assert LocalObject(i.src, w.local, At(i.cfg.source, k));
  }

  lemma HistoryColumn(i: Inputs, k: string)
    ensures k in HistoryBooks(i) <==> k in H0(i)
    ensures k in HistoryBooks(i) ==> HistoryBooks(i)[k].pid == H0(i)[k]
  {
  }

  lemma DeviceColumn(i: Inputs, w: World, k: string)
    requires WorldOK(i.cfg, w) && ViewsOK(i, w)
    ensures k in DeviceBooksAt(i) <==> k in D0(i, w)
  {
    hide LocalTree, DeviceTree, Compatible, SupplementsAreFiles, CrossIndexes, ThumbNamesOK, LocalView, HistoryView,
         OwnObjects, NoRawKeys, RelClean, Ext, Base, TreeBooks;
    BookIn(i.cfg, w.device, i.cfg.target, k);
    assert DeviceObjectAt(i.cfg, i.dst, w.device, At(i.cfg.target, k));
  }

  lemma Rows(i: Inputs, w: World, k: string)
    requires WorldOK(i.cfg, w) && ViewsOK(i, w)
    ensures k in Row7(i) <==> k in RemoveLocal(L0(i, w), H0(i), D0(i, w), i.ignoreRemovals)
    ensures k in Row6(i) <==> k in RemoveDevice(L0(i, w), H0(i), D0(i, w))
    ensures k in Row3(i) <==> k in CopyOver(L0(i, w), H0(i), D0(i, w), i.ignoreRemovals)
  {
    hide WorldOK, ViewsOK, LocalBooks, HistoryBooks, DeviceBooksAt, TreeBooks, H0;
    LocalColumn(i, w, k);
    HistoryColumn(i, k);
    DeviceColumn(i, w, k);
  }

  // ---------------------------------------------------------------------------------- the books after a run

  lemma LocalAfter(i: Inputs, b: Subsets, w: World, s: PState, k: string)
    requires RunOK(i, b, w) && IsPlan(i, b, s)
    ensures var t := Now(CtxFor(i, b, w), s).local;
            BookAt(i.cfg, t, At(i.cfg.source, k)) <==> k in LocalBooks(i) && k !in Row7(i)
    ensures var t := Now(CtxFor(i, b, w), s).local;
            BookAt(i.cfg, t, At(i.cfg.source, k)) ==> t[At(i.cfg.source, k)] == w.local[At(i.cfg.source, k)]
  {
    hide IsPlan, RunOK, WorldOK, ViewsOK, LocalBooks, HistoryBooks, DeviceBooksAt, Row7, Row3, Reasons, Objects,
         SimDevice, Untouched, DirsAreDirs, ThumbsSeen, BaseOK, DeviceForm, RemovedSet, JobRels, JobNames,
         Device6Tree, Ext, Base, BookKey, ThumbPaths;
    PlanEnds(i, b, s, w);
    RunParts(i, b, w);
    var p := At(i.cfg.source, k);
    var c := CtxFor(i, b, w);
    assert SimLocal(c, s, Now(c, s));
    assert FileKept(i.src, RemovedSet(i.src, i.cfg.source, Row7(i)), s.src, p);
    LocalBookIff(i, w, k);
    if k in LocalBooks(i) { VictimIff(i, w, k); }
  }

  lemma LocalBookIff(i: Inputs, w: World, k: string)
    requires WorldOK(i.cfg, w) && ViewsOK(i, w)
    ensures k in LocalBooks(i) <==> BookAt(i.cfg, w.local, At(i.cfg.source, k))
    ensures k in LocalBooks(i) ==> At(i.cfg.source, k) in i.src && !i.src[At(i.cfg.source, k)].dir
  {
    LocalColumn(i, w, k);
    assert LocalObject(i.src, w.local, At(i.cfg.source, k));
  }

  /** A local book goes with the books of row 7 exactly when it is one of them. */
  lemma VictimIff(i: Inputs, w: World, k: string)
    requires WorldOK(i.cfg, w) && ViewsOK(i, w) && k in LocalBooks(i)
    ensures At(i.cfg.source, k) in RemovedSet(i.src, i.cfg.source, Row7(i)) <==> k in Row7(i)
  {
    hide LocalBooks, Row7, BookKey, WorldOK, ViewsOK;
    LocalBookFacts(i, w, k);
    if k !in Row7(i) {
      KeptBook(i, w, k);
    } else {
      assert VictimOf(i.cfg.source, k, At(i.cfg.source, k));
    }
  }

  /** A page index is never taken for a book. */
  lemma SupplementNotBook(cfg: Config, root: string, j: string, p: string)
    requires RootPath(root) && BookKey(j) && VictimOf(root, j, p) && Ext(Base(p)) in cfg.bookExts
    requires ".apnx" !in cfg.bookExts
    ensures p == At(root, j)
  {
    hide BookKey, Ext, Base, LastIndex, RootPath, Below;
    KeyClean(j);
    assert Rerooted(root, Supplements(At(root, j)), Supplements(j)) by { SupplementsAt(root, j); }
  }

  lemma KeyClean(j: string)
    requires BookKey(j)
    ensures RelClean(j)
  {
  }

  lemma SameBase(cfg: Config, k: string)
    requires RootPath(cfg.source) && RootPath(cfg.target) && RelClean(k)
    ensures Base(At(cfg.source, k)) == Base(At(cfg.target, k))
  {
    DirAt(cfg.source, k);
    DirAt(cfg.target, k);
  }

  /** Among the copied paths the books are those of row 3. */
  lemma BookRels(i: Inputs, b: Subsets, w: World, k: string)
    requires RunOK(i, b, w) && Ext(Base(At(i.cfg.target, k))) in i.cfg.bookExts
    ensures k in CtxFor(i, b, w).rels <==> k in Row3(i)
  {
    hide RunOK, WorldOK, ViewsOK, BookKey, LocalBooks, Row3, Row7, Ext, Base, LastIndex, RelClean, JobNames, RootPath,
         ThumbPaths;
    RunParts(i, b, w);
    TargetRoot(i, b, w);
    RemainingSub(i);
    var rem, p := Remaining(i), At(i.cfg.source, k);
    if k in Row3(i) {
      Row3Local(i, k);
      KeptBook(i, w, k);
      assert VictimOf(i.cfg.source, k, p);
      assert p in RemovedSet(rem, i.cfg.source, Row3(i));
      assert Below(p, i.cfg.source) && Rel(p, i.cfg.source) == k;
    }
    if k in CtxFor(i, b, w).rels {
      RelsFact(i, w, rem, k);
      SameBase(i.cfg, k);
      var q :| q in RemovedSet(rem, i.cfg.source, Row3(i)) && q in rem && Below(q, i.cfg.source)
          && Rel(q, i.cfg.source) == k;
      AtRel(q, i.cfg.source);
      var j :| j in Row3(i) && VictimOf(i.cfg.source, j, q);
      Row3Local(i, j);
      LocalBookFacts(i, w, j);
      SupplementNotBook(i.cfg, i.cfg.source, j, q);
      AtInjective(i.cfg.source, j, k);
    }
  }

  /** What is left of the device books before the copies. */
  lemma Device6Book(i: Inputs, b: Subsets, w: World, k: string)
    requires RunOK(i, b, w)
    ensures var p := At(i.cfg.target, k);
            BookAt(i.cfg, Device6Tree(i, b, w), p) <==> BookAt(i.cfg, w.device, p) && k !in Row6(i)
    ensures var p := At(i.cfg.target, k);
            BookAt(i.cfg, Device6Tree(i, b, w), p) ==> Device6Tree(i, b, w)[p] == w.device[p]
  {
    hide RunOK, WorldOK, ViewsOK, BookKey, LocalBooks, HistoryBooks, DeviceBooksAt, Row6, Row7, Ext, Base, LastIndex,
         RelClean, JobNames, JobRels, NamesOf, RootPath;
    RunParts(i, b, w);
    TargetRoot(i, b, w);
    var p := At(i.cfg.target, k);
    ScopesApart(i.cfg, p);
    DeviceMember(i, w, p);
    if k in Row6(i) { assert VictimOf(i.cfg.target, k, p); }
    if BookAt(i.cfg, w.device, p) && p in RemovedSet(i.dst, i.cfg.target, Row6(i)) {
      var j :| j in Row6(i) && VictimOf(i.cfg.target, j, p);
      Row6Device(i, w, j);
      SupplementNotBook(i.cfg, i.cfg.target, j, p);
      AtInjective(i.cfg.target, j, k);
    }
  }

  lemma DeviceMember(i: Inputs, w: World, p: string)
    requires ViewsOK(i, w) && InScope(i.cfg, p)
    ensures p in i.dst <==> p in w.device
  {
    assert DeviceObjectAt(i.cfg, i.dst, w.device, p);
  }

  lemma Row6Device(i: Inputs, w: World, j: string)
    requires WorldOK(i.cfg, w) && ViewsOK(i, w) && j in Row6(i)
    ensures BookKey(j)
  {
    hide LocalBooks, DeviceBooksAt, BookKey, WorldOK, ViewsOK;
    InHistory(i, j);
    DeviceBookFacts(i, w, j);
  }

  lemma DeviceAfter(i: Inputs, b: Subsets, w: World, s: PState, k: string)
    requires RunOK(i, b, w) && IsPlan(i, b, s)
    ensures var t, p := Now(CtxFor(i, b, w), s).device, At(i.cfg.target, k);
            BookAt(i.cfg, t, p) <==> k in Row3(i) || (BookAt(i.cfg, w.device, p) && k !in Row6(i))
    ensures var t, p := Now(CtxFor(i, b, w), s).device, At(i.cfg.target, k);
            BookAt(i.cfg, t, p) ==>
                if k in Row3(i) then At(i.cfg.source, k) in w.local && t[p] == w.local[At(i.cfg.source, k)]
                                    else p in w.device && t[p] == w.device[p]
  {
    hide IsPlan, RunOK, WorldOK, ViewsOK, LocalBooks, HistoryBooks, DeviceBooksAt, Row7, Row3, Row6, Inv, Untouched,
         DirFor, DirsAreDirs, ThumbsSeen, BaseOK, RemovedSet, JobRels, JobNames, Device6Tree, Ext, Base, BookKey,
         ThumbPaths, LocalInv;
    PlanEnds(i, b, s, w);
    RunParts(i, b, w);
    var p := At(i.cfg.target, k);
    var c := CtxFor(i, b, w);
    assert FormAt(c, Device6Tree(i, b, w), c.rels, c.names, Now(c, s).device, p);
    ScopesApart(i.cfg, p);
    Device6Book(i, b, w, k);
    if Ext(Base(p)) in i.cfg.bookExts { BookRels(i, b, w, k); }
    if k in Row3(i) { Row3Source(i, b, w, k); }
  }

  lemma Row3Source(i: Inputs, b: Subsets, w: World, k: string)
    requires RunOK(i, b, w) && k in Row3(i)
    ensures BookAt(i.cfg, w.local, At(i.cfg.source, k)) && Ext(Base(At(i.cfg.target, k))) in i.cfg.bookExts
  {
    hide RunOK, WorldOK, ViewsOK, BookKey, LocalBooks, Row3, Ext, Base, LastIndex, RelClean, RootPath;
    RunParts(i, b, w);
    TargetRoot(i, b, w);
    Row3Local(i, k);
    LocalBookFacts(i, w, k);
    KeyClean(k);
    SameBase(i.cfg, k);
  }

  // ---------------------------------------------------------------------------------- the theorem

  /** A complete run of the plan changes the books of the source and of the target by the decision table, contents
      included, in every order of the loops. */
  lemma DecisionTable(i: Inputs, b: Subsets, s: PState, w: World)
    requires RunOK(i, b, w) && IsPlan(i, b, s)
    ensures var r := Exec(w, s.acts);
            && !r.failed
            && TreeBooks(i.cfg, r.world.local, i.cfg.source) == NewLocal(L0(i, w), H0(i), D0(i, w), i.ignoreRemovals)
            && TreeBooks(i.cfg, r.world.device, i.cfg.target) == NewDevice(L0(i, w), H0(i), D0(i, w), i.ignoreRemovals)
  {
    PlanEnds(i, b, s, w);
    EndedTable(i, b, w, s);
  }

  lemma LocalRow(i: Inputs, b: Subsets, w: World, s: PState, k: string)
    requires RunOK(i, b, w) && IsPlan(i, b, s)
    ensures var T := TreeBooks(i.cfg, Exec(w, s.acts).world.local, i.cfg.source);
            && (k in T <==> k in L0(i, w) && k !in RemoveLocal(L0(i, w), H0(i), D0(i, w), i.ignoreRemovals))
            && (k in T ==> k in L0(i, w) && T[k] == L0(i, w)[k])
  {
    hide IsPlan, RunOK, Ended, RecordedBooks, CopyOver, RemoveDevice, RemoveLocal, WorldOK, ViewsOK, Exec, LocalBooks,
         Row3, Row6, Row7, Ext, Base, D0;
    PlanEnds(i, b, s, w);
    RunParts(i, b, w);
    NowIsExec(i, b, w, s);
    LocalAfter(i, b, w, s, k);
    LocalBookIff(i, w, k);
    BookIn(i.cfg, w.local, i.cfg.source, k);
    BookIn(i.cfg, Exec(w, s.acts).world.local, i.cfg.source, k);
    Rows(i, w, k);
  }

  /** What a run leaves of the book `k` on the device, in terms of the trees. */
  predicate DeviceRowOf(T: Library, L: Library, D: Library, copied: bool, removed: bool, k: string) {
    && (k in T <==> copied || (k in D && !removed))
    && (copied ==> k in L && k in T && T[k] == L[k])
    && (k in T && !copied ==> k in D && T[k] == D[k])
  }

  lemma DeviceRowTrees(i: Inputs, b: Subsets, w: World, s: PState, t: Tree, k: string)
    requires RunOK(i, b, w) && IsPlan(i, b, s) && t == Now(CtxFor(i, b, w), s).device
    ensures DeviceRowOf(TreeBooks(i.cfg, t, i.cfg.target), L0(i, w), D0(i, w), k in Row3(i), k in Row6(i), k)
  {
    hide IsPlan, RunOK, Ended, Row3, Row6, TreeBooks, CtxFor, Ext, Base, LastIndex, Below, At;
    PlanEnds(i, b, s, w);
    DeviceAfter(i, b, w, s, k);
    BookIn(i.cfg, t, i.cfg.target, k);
    BookIn(i.cfg, w.device, i.cfg.target, k);
    BookIn(i.cfg, w.local, i.cfg.source, k);
    if k in Row3(i) { Row3Source(i, b, w, k); }
  }

  lemma DeviceRow(i: Inputs, b: Subsets, w: World, s: PState, k: string)
    requires RunOK(i, b, w) && IsPlan(i, b, s)
    ensures var L, H, D := L0(i, w), H0(i), D0(i, w);
            DeviceRowOf(TreeBooks(i.cfg, Exec(w, s.acts).world.device, i.cfg.target), L, D,
                        k in CopyOver(L, H, D, i.ignoreRemovals), k in RemoveDevice(L, H, D), k)
  {
    hide IsPlan, RunOK, Ended, CopyOver, RemoveDevice, WorldOK, ViewsOK, Exec, Row3, Row6, TreeBooks, DeviceRowOf, L0,
         H0, D0, CtxFor;
    PlanEnds(i, b, s, w);
    RunParts(i, b, w);
    NowIsExec(i, b, w, s);
    DeviceRowTrees(i, b, w, s, Now(CtxFor(i, b, w), s).device, k);
    Rows(i, w, k);
  }

  lemma BookIn(cfg: Config, t: Tree, root: string, k: string)
    ensures k in TreeBooks(cfg, t, root) <==> BookAt(cfg, t, At(root, k))
    ensures k in TreeBooks(cfg, t, root) ==>
              At(root, k) in t && t[At(root, k)].File? && TreeBooks(cfg, t, root)[k] == t[At(root, k)].content
  {
    hide Ext, Base;
    assert LibraryAt(cfg, t, root, TreeBooks(cfg, t, root), k);
  }

  lemma NewLocalIs(L: Library, H: Library, D: Library, ignoring: bool, T: Library)
    requires forall k :: k in T <==> k in L && k !in RemoveLocal(L, H, D, ignoring)
    requires forall k :: k in T ==> T[k] == L[k]
    ensures T == NewLocal(L, H, D, ignoring)
  {
    hide RemoveLocal;
  }

  lemma NewDeviceIs(L: Library, H: Library, D: Library, ignoring: bool, U: Library)
    requires forall k :: DeviceRowOf(U, L, D, k in CopyOver(L, H, D, ignoring), k in RemoveDevice(L, H, D), k)
    ensures U == NewDevice(L, H, D, ignoring)
  {
    hide CopyOver, RemoveDevice;
    var V := NewDevice(L, H, D, ignoring);
    forall k ensures k in U <==> k in V {
      assert DeviceRowOf(U, L, D, k in CopyOver(L, H, D, ignoring), k in RemoveDevice(L, H, D), k);
    }
    forall k | k in U ensures U[k] == V[k] {
      assert DeviceRowOf(U, L, D, k in CopyOver(L, H, D, ignoring), k in RemoveDevice(L, H, D), k);
    }
  }

  lemma EndedTable(i: Inputs, b: Subsets, w: World, s: PState)
    requires RunOK(i, b, w) && IsPlan(i, b, s)
    ensures var r := Exec(w, s.acts);
            && !r.failed
            && TreeBooks(i.cfg, r.world.local, i.cfg.source) == NewLocal(L0(i, w), H0(i), D0(i, w), i.ignoreRemovals)
            && TreeBooks(i.cfg, r.world.device, i.cfg.target) == NewDevice(L0(i, w), H0(i), D0(i, w), i.ignoreRemovals)
  {
    hide IsPlan, RunOK, Ended, CopyOver, RemoveDevice, RemoveLocal, Exec, TreeBooks, H0, L0, D0, NewLocal, NewDevice;
    PlanEnds(i, b, s, w);
    NowIsExec(i, b, w, s);
    var T, U := TreeBooks(i.cfg, Exec(w, s.acts).world.local, i.cfg.source),
        TreeBooks(i.cfg, Exec(w, s.acts).world.device, i.cfg.target);
    var L, H, D, ig := L0(i, w), H0(i), D0(i, w), i.ignoreRemovals;
    assert T == NewLocal(L, H, D, ig) by {
      forall k ensures k in T <==> k in L && k !in RemoveLocal(L, H, D, ig) { LocalRow(i, b, w, s, k); }
      forall k | k in T ensures T[k] == L[k] { LocalRow(i, b, w, s, k); }
      NewLocalIs(L, H, D, ig, T);
    }
    assert U == NewDevice(L, H, D, ig) by {
      forall k ensures DeviceRowOf(U, L, D, k in CopyOver(L, H, D, ig), k in RemoveDevice(L, H, D), k) {
        DeviceRow(i, b, w, s, k);
      }
      NewDeviceIs(L, H, D, ig, U);
    }
  }

  lemma NowIsExec(i: Inputs, b: Subsets, w: World, s: PState)
    requires Ended(i, b, w, s)
    ensures !Exec(w, s.acts).failed && Exec(w, s.acts).world == Now(CtxFor(i, b, w), s)
  {
    hide CtxOK, Reasons, Objects, Sim, Untouched, DirsAreDirs, ThumbsSeen, BaseOK, DeviceForm, LocalInv, RemovedSet,
         JobRels, JobNames, Row7, ThumbPaths;
  }
}
