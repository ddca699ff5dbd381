/** The protocol around the planner: users change the two file systems, runs complete or are cut short, and the
    history that one complete run saves decides what the next one removes. */
module Protocol {
  import opened Paths
  import opened InfoSet
  import opened Plan
  import opened FileSystem
  import opened WellFormed
  import opened Removals
  import opened Setting
  import opened Decisions
  import opened Outcomes
  import opened Table
  import opened Theorems
  import opened Counting
  import opened Stability
  import opened Resumption

  // ---------------------------------------------------------------------------------- when a plan is empty

  lemma PlannedAtDest(i: Inputs, k: string)
    requires k in LocalBooks(i)
    ensures PlannedCopies(i, Dest(i.cfg, LocalBooks(i)[k]), k) >= 1
  {
    hide LocalBooks, Dest, Supplements, FoundCopies, ThumbCopies, Remaining;
  }

  lemma CopyPlanned(i: Inputs, b: Subsets, s: PState, w: World)
    requires RunOK(i, b, w) && IsPlan(i, b, s) && s.acts == []
    ensures Row3(i) == {}
  {
    hide RunOK, IsPlan, IsOrders, FinalState, Row3, LocalBooks, Dest, PlannedCopies;
    var o := PlanOrders(i, b, s);
    CopiesPlanned(i, b, o, w, "");
    if o.o3 != [] {
      var k := o.o3[|o.o3| - 1];
      assert k in Keys(o.o3);
      Row3Local(i, k);
      PlannedAtDest(i, k);
      CopiesPlanned(i, b, o, w, Dest(i.cfg, LocalBooks(i)[k]));
    }
  }

  lemma NothingInLoops(i: Inputs, b: Subsets, o: Orders, w: World)
    requires RunOK(i, b, w) && IsOrders(i, b, o) && Row7(i) == {} && Row6(i) == {} && Row3(i) == {}
    ensures FinalState(i, b, o) == i.Start(b.thumbs)
  {
    hide RunOK, Row7, Row6, Row3, Objs7, Objs6, Objs3, Loop7, Loop6, DeviceBooks;
    var s := i.Start(b.thumbs);
    Active7Is(i, b, w);
    DeviceMode(i, b, w);
    EmptyMap(Objs7(i, b));
    assert After7(i, b, o) == s;
    Active6Is(i, b, w, s);
    EmptyMap(Objs6(i, b, s));
    assert After6(i, b, o, s) == s;
    CopiesPlanned(i, b, o, w, "");
    NoKeys(o.o3);
  }

  /** A table that changes nothing removes nothing. */
  lemma NothingChanged(L: Library, H: Library, D: Library, ignoring: bool)
    requires NewLocal(L, H, D, ignoring) == L && NewDevice(L, H, D, ignoring) == D
    ensures RemoveLocal(L, H, D, ignoring) == {} && RemoveDevice(L, H, D) == {}
  {
    hide CopyOver;
    forall k ensures k !in RemoveLocal(L, H, D, ignoring) { assert k in L <==> k in NewLocal(L, H, D, ignoring); }
    forall k ensures k !in RemoveDevice(L, H, D) {
      assert k in D <==> k in NewDevice(L, H, D, ignoring);
      if k in CopyOver(L, H, D, ignoring) { CopiedIsLocal(L, H, D, ignoring, k); }
    }
  }

  lemma CopiedIsLocal(L: Library, H: Library, D: Library, ignoring: bool, k: string)
    requires k in CopyOver(L, H, D, ignoring)
    ensures k in L && k !in RemoveLocal(L, H, D, ignoring)
  {
    hide RemoveLocal;
  }

  lemma NothingRemoved(i: Inputs, b: Subsets, s: PState, w: World)
    requires RunOK(i, b, w) && IsPlan(i, b, s) && s.acts == []
    ensures Row7(i) == {} && Row6(i) == {}
  {
    hide RunOK, IsPlan, Row7, Row6, Row3, TreeBooks, RecordedBooks, CopyOver, RemoveLocal, RemoveDevice, L0, H0, D0,
         NewLocal, NewDevice;
    DecisionTable(i, b, s, w);
    RunParts(i, b, w);
    assert Exec(w, []).world == w;
    assert L0(i, w) == TreeBooks(i.cfg, w.local, i.cfg.source)
        && D0(i, w) == TreeBooks(i.cfg, w.device, i.cfg.target) by {
      Columns(i, w);
    }
    NothingChanged(L0(i, w), H0(i), D0(i, w), i.ignoreRemovals);
    forall k ensures k !in Row7(i) && k !in Row6(i) { Rows(i, w, k); }
  }

  /** The plan is empty exactly when no book is in one of the rows that call for action. */
  lemma EmptyPlanIff(i: Inputs, b: Subsets, s: PState, w: World)
    requires RunOK(i, b, w) && IsPlan(i, b, s)
    ensures s.acts == [] <==> Row7(i) == {} && Row6(i) == {} && Row3(i) == {}
  {
    hide RunOK, IsPlan, IsOrders, FinalState, Row7, Row6, Row3;
    var o := PlanOrders(i, b, s);
    if s.acts == [] {
      CopyPlanned(i, b, s, w);
      NothingRemoved(i, b, s, w);
    }
    if Row7(i) == {} && Row6(i) == {} && Row3(i) == {} { NothingInLoops(i, b, o, w); }
  }

  // ---------------------------------------------------------------------------------- settled libraries

  predicate SettledAt(L: Library, H: Library, D: Library, k: string) {
    && (k in L ==> k in D)
    && (k in H && k in D ==> k in L)
    && (k in L && k in H ==> H[k] == L[k])
  }

  /** Every local book is on the device, unchanged since it was recorded, and no recorded book is left over there. */
  ghost predicate Settled(L: Library, H: Library, D: Library) {
    forall k :: SettledAt(L, H, D, k)
  }

  /** The table has nothing to do exactly when the libraries are settled, whether or not removals are ignored. */
  lemma SettledIff(L: Library, H: Library, D: Library, ignoring: bool)
    ensures Settled(L, H, D) <==>
              RemoveLocal(L, H, D, ignoring) == {} && RemoveDevice(L, H, D) == {} && CopyOver(L, H, D, ignoring) == {}
  {
    hide CopyOver, RemoveLocal, RemoveDevice;
    if Settled(L, H, D) {
      forall k
        ensures k !in RemoveLocal(L, H, D, ignoring) && k !in RemoveDevice(L, H, D) && k !in CopyOver(L, H, D, ignoring)
      {
        assert SettledAt(L, H, D, k);
        SettledAtIff(L, H, D, ignoring, k);
      }
    }
    if RemoveLocal(L, H, D, ignoring) == {} && RemoveDevice(L, H, D) == {} && CopyOver(L, H, D, ignoring) == {} {
      forall k ensures SettledAt(L, H, D, k) { SettledAtIff(L, H, D, ignoring, k); }
    }
  }

  lemma SettledAtIff(L: Library, H: Library, D: Library, ignoring: bool, k: string)
    ensures SettledAt(L, H, D, k) <==>
              k !in RemoveLocal(L, H, D, ignoring) && k !in RemoveDevice(L, H, D) && k !in CopyOver(L, H, D, ignoring)
  {
    hide CopyOver;
    CopyOverIs(L, H, D, ignoring, k);
  }

  /** Once the local books are recorded, the libraries that the table leaves are settled. */
  lemma TableSettles(L: Library, H: Library, D: Library, ignoring: bool)
    ensures Settled(NewLocal(L, H, D, ignoring), NewLocal(L, H, D, ignoring), NewDevice(L, H, D, ignoring))
  {
    hide CopyOver, NewDevice;
    var X, Y := NewLocal(L, H, D, ignoring), NewDevice(L, H, D, ignoring);
    forall k ensures SettledAt(X, X, Y, k) {
      CopyOverIs(L, H, D, ignoring, k);
      NewDeviceAt(L, H, D, ignoring, k);
    }
  }

  // ---------------------------------------------------------------------------------- what is saved

  /** What a history read back must look like to the next run. */
  lemma SaveIsHistory(cfg: Config, os: OIS, t: Tree)
    requires RootPath(cfg.source) && LocalTree(cfg, t) && LocalView(os, t)
    ensures HistoryView(cfg, Descend(os, cfg.source))
  {
    hide RelClean, Base, At;
    var h := Descend(os, cfg.source);
    forall k ensures HistoryAt(cfg, h, k) {
      if k in h {
        var p := At(cfg.source, k);
        assert LocalAt(cfg, t, p) && LocalObject(os, t, p);
        DirAt(cfg.source, k);
      }
    }
  }

  lemma SaveIsBooks(cfg: Config, os: OIS, t: Tree)
    requires LocalView(os, t)
    ensures RecordedBooks(cfg, Descend(os, cfg.source)) == TreeBooks(cfg, t, cfg.source)
  {
    hide RecordedBooks, TreeBooks, Descend;
    var x, y := RecordedBooks(cfg, Descend(os, cfg.source)), TreeBooks(cfg, t, cfg.source);
    forall k ensures k in x <==> k in y { SavedBook(cfg, os, t, k); }
    forall k | k in x ensures x[k] == y[k] { SavedBook(cfg, os, t, k); }
  }

  lemma SavedBook(cfg: Config, os: OIS, t: Tree, k: string)
    requires LocalView(os, t)
    ensures var x, y := RecordedBooks(cfg, Descend(os, cfg.source)), TreeBooks(cfg, t, cfg.source);
            (k in x <==> k in y) && (k in x ==> x[k] == y[k])
  {
    hide Ext, Base, TreeBooks;
    BookIn(cfg, t, cfg.source, k);
    assert LocalObject(os, t, At(cfg.source, k));
  }

  lemma SaveIsDescend(cfg: Config, os: OIS, t: Tree, hst: OIS)
    requires RootPath(cfg.source) && cfg.source != "." && LocalTree(cfg, t) && LocalView(os, t)
    requires IsSubsetByPath(os, cfg.source, hst)
    ensures hst == Descend(os, cfg.source)
  {
    hide RelClean, Base;
    forall k | SelectedIn(os, k, cfg.source) ensures Below(k, cfg.source) {
      assert LocalAt(cfg, t, k) && LocalObject(os, t, k) && LocalObject(os, t, cfg.source);
    }
    SubsetIsDescend(os, cfg.source, hst);
  }

  lemma LocalTreeOf(cfg: Config, w: World)
    requires WorldOK(cfg, w)
    ensures LocalTree(cfg, w.local)
  {
    hide LocalTree;
  }

  /** What a complete run saves: the history is one the next run can use, and its books are the local books. */
  lemma SaveRecords(i: Inputs, b: Subsets, w: World, s: PState, hst: OIS)
    requires RunOK(i, b, w) && IsPlan(i, b, s) && IsSubsetByPath(s.src, i.cfg.source, hst)
    ensures HistoryView(i.cfg, hst)
    ensures RecordedBooks(i.cfg, hst) == TreeBooks(i.cfg, Exec(w, s.acts).world.local, i.cfg.source)
  {
    hide *;
    PlanEnds(i, b, s, w);
    var t := Exec(w, s.acts).world.local;
    RunParts(i, b, w);
    RootFacts(i, w);
    PlanRunsAndPredicts(i, b, s, w);
    assert s.acts[..|s.acts|] == s.acts;
    EndedBetween(i, b, w, s, |s.acts|);
    LocalTreeOf(i.cfg, Exec(w, s.acts).world);
    SaveIsDescend(i.cfg, s.src, t, hst);
    SaveIsHistory(i.cfg, s.src, t);
    SaveIsBooks(i.cfg, s.src, t);
  }

  // ---------------------------------------------------------------------------------- the fixed point

  /** What a complete run leaves in the history store: the local mirror under the source if it did something or
      nothing was saved before, and what was there otherwise (sync/run.go). */
  ghost predicate HistoryAfter(i: Inputs, s: PState, first: bool, hst: OIS) {
    if s.acts != [] || first then IsSubsetByPath(s.src, i.cfg.source, hst) else SameData(hst, i.hst)
  }

  /** After a complete run the libraries are settled with what the history then holds. */
  lemma RunSettles(i: Inputs, b: Subsets, s: PState, w: World, first: bool, hst: OIS)
    requires RunOK(i, b, w) && IsPlan(i, b, s) && HistoryAfter(i, s, first, hst)
    ensures var r := Exec(w, s.acts).world;
            Settled(TreeBooks(i.cfg, r.local, i.cfg.source), RecordedBooks(i.cfg, hst),
                TreeBooks(i.cfg, r.device, i.cfg.target))
    ensures HistoryView(i.cfg, hst)
  {
    hide RunOK, WorldOK, Ended, IsPlan, Exec, TreeBooks, RecordedBooks, NewLocal, NewDevice, IsSubsetByPath, SameData,
         Settled, HistoryView, Row3, Row6, Row7, RemoveLocal, RemoveDevice, CopyOver;
    PlanEnds(i, b, s, w);
    DecisionTable(i, b, s, w);
    if s.acts != [] || first {
      SaveRecords(i, b, w, s, hst);
      TableSettles(L0(i, w), H0(i), D0(i, w), i.ignoreRemovals);
    } else {
      NothingToSave(i, b, s, w, hst);
      assert Exec(w, []).world == w by { ExecNothing(w); }
    }
  }

  lemma ExecNothing(w: World)
    ensures Exec(w, []) == Outcome(w, 0, false)
  {
  }

  lemma NothingToSave(i: Inputs, b: Subsets, s: PState, w: World, hst: OIS)
    requires RunOK(i, b, w) && IsPlan(i, b, s) && s.acts == [] && SameData(hst, i.hst)
    ensures Settled(TreeBooks(i.cfg, w.local, i.cfg.source), RecordedBooks(i.cfg, hst),
              TreeBooks(i.cfg, w.device, i.cfg.target))
    ensures HistoryView(i.cfg, hst)
  {
    hide IsPlan, TreeBooks, RecordedBooks, Row3, Row6, Row7, RemoveLocal, RemoveDevice, CopyOver, WorldOK, SameData,
         IsSubsets, LocalView, DeviceView, OwnObjects, NoRawKeys, HistoryView, Settled;
    EmptyPlanIff(i, b, s, w);
    forall k ensures k !in RemoveLocal(L0(i, w), H0(i), D0(i, w), i.ignoreRemovals)
        && k !in RemoveDevice(L0(i, w), H0(i), D0(i, w))
                     && k !in CopyOver(L0(i, w), H0(i), D0(i, w), i.ignoreRemovals) { Rows(i, w, k); }
    SettledIff(L0(i, w), H0(i), D0(i, w), i.ignoreRemovals);
    HistorySame(i, i.(hst := hst));
  }

  /** A run reads what the last run left, with nothing changed in between but the extracted thumbnails. */
  ghost predicate Replans(i: Inputs, r: World, hst: OIS, j: Inputs, w2: World) {
    && j.cfg == i.cfg && Reads(j, w2, hst)
    && w2.local == r.local && w2.device == r.device && PicsOK(i.cfg, w2.pics)
  }

  lemma SamePlace(cfg: Config, r: World, w2: World)
    requires WorldOK(cfg, r) && w2.local == r.local && w2.device == r.device && PicsOK(cfg, w2.pics)
    ensures WorldOK(cfg, w2)
  {
    hide LocalTree, DeviceTree, Compatible, TargetParent, SupplementsAreFiles, CrossIndexes, ThumbNamesOK, ConfigOK,
         PicsOK;
  }

  /** The device holds the target as soon as it holds a book under it. */
  lemma TargetPresent(cfg: Config, w: World, k: string)
    requires WorldOK(cfg, w) && k in TreeBooks(cfg, w.device, cfg.target)
    ensures cfg.target in w.device
  {
    hide RelClean, Ext, Base, SupplementsAreFiles, CrossIndexes, ThumbNamesOK, Compatible, LocalTree;
    RelCleanEnds(cfg.target);
    BookIn(cfg, w.device, cfg.target, k);
    DeviceAbove(w.device, At(cfg.target, k), cfg.target);
  }

  lemma SettledRows(j: Inputs, w2: World)
    requires WorldOK(j.cfg, w2) && ViewsOK(j, w2) && Settled(L0(j, w2), H0(j), D0(j, w2))
    ensures Row7(j) == {} && Row6(j) == {} && Row3(j) == {}
  {
    hide *;
    SettledIff(L0(j, w2), H0(j), D0(j, w2), j.ignoreRemovals);
    forall k ensures k !in Row7(j) && k !in Row6(j) && k !in Row3(j) { Rows(j, w2, k); }
  }

  lemma ReplanViews(i: Inputs, r: World, hst: OIS, j: Inputs, w2: World)
    requires WorldOK(i.cfg, r) && Replans(i, r, hst, j, w2) && HistoryView(i.cfg, hst) && i.cfg.target in r.device
    ensures WorldOK(j.cfg, w2) && ViewsOK(j, w2)
  {
    hide WorldOK, LocalView, DeviceView, OwnObjects, HistoryView, SameData, PicsOK, H0;
    SamePlace(i.cfg, r, w2);
    HistorySame(j.(hst := hst), j);
  }

  lemma SettledHas(L: Library, H: Library, D: Library, k: string)
    requires Settled(L, H, D) && k in L
    ensures k in D
  {
    assert SettledAt(L, H, D, k);
  }

  lemma ReplanReady(i: Inputs, r: World, hst: OIS, j: Inputs, w2: World, k: string)
    requires WorldOK(i.cfg, r) && HistoryView(i.cfg, hst) && Replans(i, r, hst, j, w2)
    requires BookAt(i.cfg, r.local, At(i.cfg.source, k))
    requires Settled(TreeBooks(i.cfg, r.local, i.cfg.source), RecordedBooks(i.cfg, hst),
              TreeBooks(i.cfg, r.device, i.cfg.target))
    ensures WorldOK(j.cfg, w2) && ViewsOK(j, w2) && Settled(L0(j, w2), H0(j), D0(j, w2))
  {
    hide *;
    BookIn(i.cfg, r.local, i.cfg.source, k);
    SettledHas(TreeBooks(i.cfg, r.local, i.cfg.source), RecordedBooks(i.cfg, hst),
        TreeBooks(i.cfg, r.device, i.cfg.target), k);
    TargetPresent(i.cfg, r, k);
    ReplanViews(i, r, hst, j, w2);
    ReplanColumns(i, r, hst, j, w2);
  }

  /** After a complete run that leaves a local book, with no outside change, planning again gives the empty plan,
      whatever the setting for removals on the device was and is. */
  lemma FixedPoint(i: Inputs, b: Subsets, s: PState, w: World, first: bool, hst: OIS, j: Inputs, d: Subsets,
                   t: PState, w2: World,
      k: string)
    requires RunOK(i, b, w) && IsPlan(i, b, s) && HistoryAfter(i, s, first, hst)
    requires var r := Exec(w, s.acts).world;
             Replans(i, r, hst, j, w2) && BookAt(i.cfg, r.local, At(i.cfg.source, k))
    requires IsSubsets(j, d) && IsPlan(j, d, t)
    ensures t.acts == []
  {
    hide *;
    var r := Exec(w, s.acts).world;
    RunSettles(i, b, s, w, first, hst);
    assert s.acts[..|s.acts|] == s.acts;
    HypothesesKept(i, b, s, w, |s.acts|);
    ReplanReady(i, r, hst, j, w2, k);
    SettledRows(j, w2);
    NoRowsOK(j, d, w2);
    EmptyPlanIff(j, d, t, w2);
  }

  lemma ReplanColumns(i: Inputs, r: World, hst: OIS, j: Inputs, w2: World)
    requires Replans(i, r, hst, j, w2)
    ensures L0(j, w2) == TreeBooks(i.cfg, r.local, i.cfg.source)
    ensures D0(j, w2) == TreeBooks(i.cfg, r.device, i.cfg.target)
    ensures H0(j) == RecordedBooks(i.cfg, hst)
  {
    hide TreeBooks, LocalView, DeviceView, OwnObjects, PicsOK, RecordedBooks, HistoryView;
    HistorySame(j.(hst := hst), j);
  }

  lemma NoRowsOK(j: Inputs, d: Subsets, w2: World)
    requires WorldOK(j.cfg, w2) && ViewsOK(j, w2) && IsSubsets(j, d) && Row3(j) == {}
    ensures RunOK(j, d, w2)
  {
    hide WorldOK, ViewsOK, IsSubsets, Row3;
  }
}
