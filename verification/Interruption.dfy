/** What an interrupted run has done to each book. */
module Interruption {
  import opened Paths
  import opened InfoSet
  import opened Plan
  import opened FileSystem
  import opened WellFormed
  import opened Invariant
  import opened Removals
  import opened DeviceRemovals
  import opened Copies
  import opened CopyLoop
  import opened Setting
  import opened Decisions
  import opened Outcomes
  import opened Table
  import opened Stability

  /** A run may have removed a local book only if it is in row 7. */
  lemma LocalBookStatus(i: Inputs, b: Subsets, w: World, s: PState, n: nat, k: string)
    requires RunOK(i, b, w) && IsPlan(i, b, s) && n <= |s.acts|
    ensures var L, T := L0(i, w), TreeBooks(i.cfg, Exec(w, s.acts[..n]).world.local, i.cfg.source);
            && (k in T ==> k in L && T[k] == L[k])
            && (k in L && k !in T ==> k in RemoveLocal(L, H0(i), D0(i, w), i.ignoreRemovals))
  {
    hide IsPlan, RunOK, WorldOK, ViewsOK, Ended, Row7, Row3, Row6, RemoveLocal, Exec, H0, D0, LocalBooks, Ext, Base,
         RemovedSet, JobRels, JobNames, LocalTree, CtxOK;
    PlanEnds(i, b, s, w);
    RunParts(i, b, w);
    EndedStatus(i, b, w, s, n, "");
    CtxInputs(i, b, w);
    var p, t := At(i.cfg.source, k), Exec(w, s.acts[..n]).world.local;
    assert LocalKept(CtxFor(i, b, w), t, p);
    LocalBookIff(i, w, k);
    BookIn(i.cfg, t, i.cfg.source, k);
    BookIn(i.cfg, w.local, i.cfg.source, k);
    if k in L0(i, w) && p !in t {
      LocalColumn(i, w, k);
      VictimIff(i, w, k);
      Rows(i, w, k);
    }
  }

  /** What a run that stopped after `n` actions has done to the book `k` of the device. */
  ghost predicate BookStatus(i: Inputs, w: World, acts: seq<Action>, n: nat, U: Library, k: string) {
    var L, D := L0(i, w), D0(i, w);
    || ((k in U <==> k in D) && (k in U ==> U[k] == D[k]))
    || (k !in U && k in Row6(i))
    || (k in U && k in Row3(i) && k in L && U[k] == L[k])
    || (k !in U && k in Row3(i) && Splits(acts, n, At(i.cfg.target, k)))
  }

  lemma OneColumn(i: Inputs, w: World, d: Tree, k: string)
    ensures var U, D, p := TreeBooks(i.cfg, d, i.cfg.target), D0(i, w), At(i.cfg.target, k);
            && (Lookup(d, p) == Lookup(w.device, p) ==> ((k in U <==> k in D) && (k in U ==> U[k] == D[k])))
            && (p !in d ==> k !in U)
            && (p in d && d[p].Directory? ==> k !in U)
            && (p in w.device && w.device[p].Directory? ==> k !in D)
            && (p !in w.device ==> k !in D)
            && (Ext(Base(p)) !in i.cfg.bookExts ==> k !in U && k !in D)
  {
    hide Ext, Base;
    BookIn(i.cfg, d, i.cfg.target, k);
    BookIn(i.cfg, w.device, i.cfg.target, k);
  }

  lemma RemovedStatus(i: Inputs, b: Subsets, w: World, acts: seq<Action>, n: nat, d: Tree, k: string)
    requires RunOK(i, b, w) && At(i.cfg.target, k) in CtxFor(i, b, w).okDst && At(i.cfg.target, k) !in d
    ensures BookStatus(i, w, acts, n, TreeBooks(i.cfg, d, i.cfg.target), k)
  {
    hide RunOK, WorldOK, ViewsOK, Row6, Row3, Row7, JobRels, JobNames, ThumbPaths, NamesOf, TreeBooks, Ext, Base,
         LastIndex;
    RunParts(i, b, w);
    TargetRoot(i, b, w);
    var p := At(i.cfg.target, k);
    OneColumn(i, w, d, k);
    if k in D0(i, w) {
      ScopesApart(i.cfg, p);
      ThumbPathsBelow(i, b, w, p);
      var j :| j in Row6(i) && VictimOf(i.cfg.target, j, p);
      Row6Device(i, w, j);
      SupplementNotBook(i.cfg, i.cfg.target, j, p);
      AtInjective(i.cfg.target, j, k);
    }
  }

  lemma ThumbPathsBelow(i: Inputs, b: Subsets, w: World, p: string)
    requires !Below(p, THUMBNAIL_FOLDER)
    ensures p !in ThumbPaths(b.thumbs, NamesOf(i.hst, Row7(i) + Row6(i)))
  {
    hide NamesOf, Row7, Row6;
  }

  lemma DirectoryStatus(i: Inputs, b: Subsets, w: World, acts: seq<Action>, n: nat, d: Tree, k: string)
    requires RunOK(i, b, w) && CtxOK(CtxFor(i, b, w)) && At(i.cfg.target, k) in d && d[At(i.cfg.target, k)].Directory?
    requires DirFor(i.cfg, CtxFor(i, b, w).rels, At(i.cfg.target, k))
    ensures BookStatus(i, w, acts, n, TreeBooks(i.cfg, d, i.cfg.target), k)
  {
    hide RunOK, ViewsOK, Row6, Row3, Row7, CtxFor, TreeBooks, CtxOK, DirFor;
    var c, p := CtxFor(i, b, w), At(i.cfg.target, k);
    RunParts(i, b, w);
    CtxInputs(i, b, w);
    MadeDirLocal(c, p);
    assert SameKind(w.local, At(i.cfg.source, k), w.device, p);
    OneColumn(i, w, d, k);
  }

  lemma CopiedStatus(i: Inputs, b: Subsets, w: World, acts: seq<Action>, n: nat, d: Tree, k: string)
    requires RunOK(i, b, w) && At(i.cfg.target, k) in d && k in CtxFor(i, b, w).rels
    requires d[At(i.cfg.target, k)].File? && Lookup(w.local, At(i.cfg.source, k)) == Some(d[At(i.cfg.target, k)])
    ensures BookStatus(i, w, acts, n, TreeBooks(i.cfg, d, i.cfg.target), k)
  {
    hide RunOK, WorldOK, ViewsOK, Row6, Row3, Row7, CtxFor, Ext, Base, LastIndex, At;
    var p := At(i.cfg.target, k);
    OneColumn(i, w, d, k);
    BookIn(i.cfg, d, i.cfg.target, k);
    BookIn(i.cfg, w.local, i.cfg.source, k);
    if Ext(Base(p)) in i.cfg.bookExts {
      BookRels(i, b, w, k);
      Row3Source(i, b, w, k);
    }
  }

  lemma PendingStatus(i: Inputs, b: Subsets, w: World, acts: seq<Action>, n: nat, d: Tree, k: string)
    requires RunOK(i, b, w) && At(i.cfg.target, k) !in d && Splits(acts, n, At(i.cfg.target, k))
    requires CtxOK(CtxFor(i, b, w)) && ReasonAt(CtxFor(i, b, w), acts, n)
    ensures BookStatus(i, w, acts, n, TreeBooks(i.cfg, d, i.cfg.target), k)
  {
    hide RunOK, WorldOK, ViewsOK, Row6, Row3, Row7, CtxFor, TreeBooks, Ext, Base, LastIndex;
    var c, p := CtxFor(i, b, w), At(i.cfg.target, k);
    RunParts(i, b, w);
    CtxInputs(i, b, w);
    OneColumn(i, w, d, k);
    ScopesApart(i.cfg, p);
    if Ext(Base(p)) in i.cfg.bookExts { BookRels(i, b, w, k); }
  }

  /** Up to wherever it stops, a run has done to a book of the device nothing, or what its row calls for, or half of
      the replacement of a changed book. */
  lemma DeviceBookStatus(i: Inputs, b: Subsets, w: World, s: PState, n: nat, k: string)
    requires RunOK(i, b, w) && IsPlan(i, b, s) && n <= |s.acts|
    ensures BookStatus(i, w, s.acts, n, TreeBooks(i.cfg, Exec(w, s.acts[..n]).world.device, i.cfg.target), k)
  {
    hide IsPlan, RunOK, WorldOK, ViewsOK, Ended, Row7, Row3, Row6, Exec, LocalBooks, Ext, Base, RemovedSet, CtxFor,
         CtxOK, TreeBooks, DirFor, BookStatus;
    PlanEnds(i, b, s, w);
    RunParts(i, b, w);
    CtxInputs(i, b, w);
    var c, p, d := CtxFor(i, b, w), At(i.cfg.target, k), Exec(w, s.acts[..n]).world.device;
    EndedStatus(i, b, w, s, n, p);
    if Lookup(d, p) == Lookup(w.device, p) {
      assert BookStatus(i, w, s.acts, n, TreeBooks(i.cfg, d, i.cfg.target), k) by { SameStatus(i, w, s.acts, n, d, k); }
    } else if p !in d && p in c.okDst {
      RemovedStatus(i, b, w, s.acts, n, d, k);
    } else if p !in d {
      assert ReasonAt(c, s.acts, n);
      PendingStatus(i, b, w, s.acts, n, d, k);
    } else {
      CreatedStatus(i, b, w, s.acts, n, d, k);
    }
  }

  lemma SameStatus(i: Inputs, w: World, acts: seq<Action>, n: nat, d: Tree, k: string)
    requires Lookup(d, At(i.cfg.target, k)) == Lookup(w.device, At(i.cfg.target, k))
    ensures BookStatus(i, w, acts, n, TreeBooks(i.cfg, d, i.cfg.target), k)
  {
    hide Row6, Row3, TreeBooks, At, Ext, Base;
    OneColumn(i, w, d, k);
  }

  lemma CreatedStatus(i: Inputs, b: Subsets, w: World, acts: seq<Action>, n: nat, d: Tree, k: string)
    requires RunOK(i, b, w) && CtxOK(CtxFor(i, b, w)) && At(i.cfg.target, k) in d
    requires MayCreate(CtxFor(i, b, w), At(i.cfg.target, k), d[At(i.cfg.target, k)])
    ensures BookStatus(i, w, acts, n, TreeBooks(i.cfg, d, i.cfg.target), k)
  {
    hide RunOK, WorldOK, ViewsOK, CtxFor, CtxOK, TreeBooks, DirFor, BookStatus;
    var c, p := CtxFor(i, b, w), At(i.cfg.target, k);
    RunParts(i, b, w);
    CtxInputs(i, b, w);
    if d[p].Directory? {
      DirectoryStatus(i, b, w, acts, n, d, k);
    } else {
      ScopesApart(i.cfg, p);
      CopiedStatus(i, b, w, acts, n, d, k);
    }
  }
}
