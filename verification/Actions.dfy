/** What single actions of a plan are: their reasons and their objects. */
module Actions {
  import opened Paths
  import opened Plan
  import opened FileSystem
  import opened WellFormed
  import opened Invariant
  import opened LocalPhase
  import opened Removals
  import opened Copies
  import opened CopyLoop
  import opened Setting
  import opened Decisions
  import opened Outcomes
  import opened Theorems
  import opened Counting
  import opened OrderFree
  import opened Pruning

  // ---------------------------------------------------------------------------------- directories

  lemma DirMade(c: Ctx, acts: seq<Action>, p: string)
    requires CtxOK(c) && Reasons(c, acts) && !Exec(c.w0, acts).failed && !c.w0.mail && DirFor(c.i.cfg, c.rels, p)
    ensures Count(acts, Dst, MkDir, p) == Occupied(Exec(c.w0, acts).world.device, p) - Occupied(c.w0.device, p)
  {
    hide CtxOK, Reasons, Exec, DirFor;
    DirsOnlyMade(c, acts, p);
    OversCopies(c.w0, acts, Dst, p);
    Conservation(c.w0, acts, Dst, p);
  }

  /** Directories of the device: the target and every directory above a copied file is made exactly once if it is
      missing, and no other directory is ever made. */
  lemma DirectoriesMadeOnce(i: Inputs, b: Subsets, s: PState, w: World, p: string)
    requires RunOK(i, b, w) && IsPlan(i, b, s)
    ensures Count(s.acts, Dst, MkDir, p) == if p !in w.device && DirFor(i.cfg, CtxFor(i, b, w).rels, p) then 1 else 0
  {
    hide RunOK, Ended, IsPlan, Exec, Reasons, FreshCopies, CtxOK, LocalInv, CtxFor, Device6Tree, DirFor, Count,
         DeviceForm;
    var c := CtxFor(i, b, w);
    PlanEnds(i, b, s, w);
    CtxInputs(i, b, w);
    EndedHasReasons(i, b, w, s);
    assert EndedReasons(i, b, w, s);
    if DirFor(i.cfg, c.rels, p) {
      DirMade(c, s.acts, p);
      EndedDevice(i, b, w, s);
      DirEnds(c, Device6Tree(i, b, w), Exec(w, s.acts).world.device, p);
    } else {
      NoStrayDirs(c, s.acts, p);
    }
  }

  lemma DirEnds(c: Ctx, dev6: Tree, d: Tree, p: string)
    requires CtxOK(c) && DeviceForm(c, dev6, c.rels, c.names, d) && DirFor(c.i.cfg, c.rels, p)
    ensures p in d
  {
    hide WorldOK, ViewsOK, DirFor;
    assert FormAt(c, dev6, c.rels, c.names, d, p);
    if Below(p, c.i.cfg.target) { NotCopiedDir(c, p, At(c.i.cfg.source, Rel(p, c.i.cfg.target))); }
    if Below(p, THUMBNAIL_FOLDER) { NotCopiedDir(c, p, Join(c.i.cfg.thumbDir, Rel(p, THUMBNAIL_FOLDER))); }
  }

  // ---------------------------------------------------------------------------------- reasons

  lemma {:induction false} CountOne(acts: seq<Action>, actor: Actor, kind: Kind, p: string, j: int)
    requires 0 <= j < |acts| && Is(acts[j], actor, kind, p)
    ensures Count(acts, actor, kind, p) >= 1
    decreases |acts|
  {
    if j < |acts| - 1 { CountOne(acts[..|acts| - 1], actor, kind, p, j); }
  }

  /** What a run removes locally is not there afterwards. */
  lemma RemovedIsGone(c: Ctx, acts: seq<Action>, j: int)
    requires Reasons(c, acts) && !Exec(c.w0, acts).failed && !c.w0.mail && 0 <= j < |acts| && acts[j].actor.Src?
    ensures acts[j].obj.path !in Exec(c.w0, acts).world.local
  {
    hide Exec, Reasons;
    var p := acts[j].obj.path;
    assert ReasonAt(c, acts, j) by { ReasonOf(c, acts, j); }
    CountOne(acts, Src, Remove, p, j);
    NoSrcMakes(c, acts, MkDir, p);
    NoSrcMakes(c, acts, Copy, p);
    OversCopies(c.w0, acts, Src, p);
    Conservation(c.w0, acts, Src, p);
  }

  lemma ReasonOf(c: Ctx, acts: seq<Action>, j: int)
    requires Reasons(c, acts) && 0 <= j < |acts|
    ensures ReasonAt(c, acts, j)
  {
  }

  lemma LocalDir(i: Inputs, b: Subsets, w: World, p: string)
    requires RunOK(i, b, w) && p in w.local && w.local[p].Directory?
    ensures p in i.src && i.src[p].dir
  {
    assert LocalObject(i.src, w.local, p);
  }

  /** Every action of the plan has a reason: a local removal is of a book of row 7, of one of its page indexes, or of
      a directory that these removals empty; a device removal is never of a directory, and is of a book of row 6, of
      one of its page indexes, of a thumbnail recorded for a removed book, or makes room for the copy that follows at
      once; directories are made at the target and above copied files only; and everything copied is a book of row 3
      or a page index of one, re-rooted from the source to the target, or the thumbnail of one, into the thumbnail
      folder. */
  lemma EveryActionHasItsReason(i: Inputs, b: Subsets, s: PState, w: World, j: int)
    requires RunOK(i, b, w) && IsPlan(i, b, s) && 0 <= j < |s.acts|
    ensures ReasonAt(CtxFor(i, b, w), s.acts, j)
    ensures var R, p := RemovedSet(i.src, i.cfg.source, Row7(i)), s.acts[j].obj.path;
            s.acts[j].actor.Src? ==> p in R || Pruned(i.src, i.cfg.source, R, p)
  {
    hide RunOK, Ended, IsPlan, Exec, Reasons, FreshCopies, CtxOK, CtxFor, Pruned, RemovedSet, RawFree, Row7;
    var c := CtxFor(i, b, w);
    PlanEnds(i, b, s, w);
    EndedHasReasons(i, b, w, s);
    CtxInputs(i, b, w);
    ReasonOf(c, s.acts, j);
    if s.acts[j].actor.Src? {
      RemovedIsGone(c, s.acts, j);
      var p := s.acts[j].obj.path;
      OkSrcIs(i, b, w);
      if p !in c.okSrc {
        LocalDir(i, b, w, p);
        DirectoriesPruned(i, b, s, w, p);
      }
    }
  }

  lemma OkSrcIs(i: Inputs, b: Subsets, w: World)
    ensures CtxFor(i, b, w).okSrc == RemovedSet(i.src, i.cfg.source, Row7(i))
  {
    hide RemovedSet, Row7, Row6, Row3, JobRels, JobNames, ThumbPaths;
  }

  /** Everything the plan creates on the device is at or below the target or in the thumbnail folder, and everything
      it removes there is too. */
  lemma DeviceConfined(i: Inputs, b: Subsets, s: PState, w: World, p: string)
    requires RunOK(i, b, w) && IsPlan(i, b, s) && !InScope(i.cfg, p)
    ensures var d := Exec(w, s.acts).world.device; (p in d <==> p in w.device) && (p in d ==> d[p] == w.device[p])
    ensures forall j :: 0 <= j < |s.acts| && s.acts[j].actor.Dst?
                        ==> InScope(i.cfg, s.acts[j].obj.path)
  {
    hide RunOK, Ended, IsPlan, Row7, Row6, Exec, Reasons, LocalInv, CtxFor, Device6Tree;
    PlanEnds(i, b, s, w);
    CtxInputs(i, b, w);
    EndedDevice(i, b, w, s);
    EndedHasReasons(i, b, w, s);
    ScopedActions(i, b, w, s);
    assert FormAt(CtxFor(i, b, w), Device6Tree(i, b, w), CtxFor(i, b, w).rels, CtxFor(i, b, w).names,
        Exec(w, s.acts).world.device, p);
    OutOfScopeStays(i, b, w, p);
  }

  lemma OutOfScopeStays(i: Inputs, b: Subsets, w: World, p: string)
    requires RunOK(i, b, w) && !InScope(i.cfg, p)
    ensures p in Device6Tree(i, b, w) <==> p in w.device
    ensures p in w.device ==> Device6Tree(i, b, w)[p] == w.device[p]
  {
    hide WorldOK, ViewsOK, IsSubsets, Row6, Row7, VictimOf, LocalBooks, DeviceBooksAt, HistoryBooks, JobRels, JobNames;
    RunParts(i, b, w);
    if p in RemovedSet(i.dst, i.cfg.target, Row6(i)) {
      var k :| k in Row6(i) && VictimOf(i.cfg.target, k, p);
      Row6Both(i, k);
      DeviceVictimFacts(i, w, k, p);
    }
  }

  lemma ReasonScope(c: Ctx, acts: seq<Action>, j: int)
    requires 0 <= j < |acts| && acts[j].actor.Dst? && !acts[j].kind.Remove? && ReasonAt(c, acts, j)
    ensures InScope(c.i.cfg, acts[j].obj.path)
  {
  }

  lemma ScopedActions(i: Inputs, b: Subsets, w: World, s: PState)
    requires EndedReasons(i, b, w, s)
    ensures forall j :: 0 <= j < |s.acts| && s.acts[j].actor.Dst? ==> InScope(i.cfg, s.acts[j].obj.path)
  {
    hide WorldOK, ViewsOK, Exec, JobRels, JobNames, RemovedSet, ThumbPaths, InScope, DirFor, CopyFor, ThumbFor, CtxFor;
    CtxInputs(i, b, w);
    var c := CtxFor(i, b, w);
    forall j | 0 <= j < |s.acts| && s.acts[j].actor.Dst? ensures InScope(i.cfg, s.acts[j].obj.path) {
      assert ReasonAt(c, s.acts, j) && OkDstAt(c, s.acts[j].obj.path);
      if !s.acts[j].kind.Remove? {
        ReasonScope(c, s.acts, j);
      } else if j + 1 < |s.acts| && Is(s.acts[j + 1], Dst, Copy, s.acts[j].obj.path) {
        assert ReasonAt(c, s.acts, j + 1);
        ReasonScope(c, s.acts, j + 1);
      }
    }
  }

  // ---------------------------------------------------------------------------------- objects

  /** Two actions of the list work on the same object. */
  ghost predicate SharesObject(acts: seq<Action>) {
    exists j, k :: 0 <= j < k < |acts| && acts[j].obj.id == acts[k].obj.id
  }

  ghost predicate EndedObjects(i: Inputs, b: Subsets, w: World, s: PState) {
    var c := CtxFor(i, b, w);
    SharesOnlyReplaced(c, s.acts) && Reasons(c, s.acts) && FreshCopies(c, s.acts) && !Exec(w, s.acts).failed
        && !w.mail && Parents(c, s)
  }

  lemma EndedHasObjects(i: Inputs, b: Subsets, w: World, s: PState)
    requires RunOK(i, b, w) && IsPlan(i, b, s)
    ensures EndedObjects(i, b, w, s)
  {
    hide IsPlan, WorldOK, IsSubsets, Sim, Untouched, DirsAreDirs, ThumbsSeen, BaseOK, DeviceForm, LocalInv, RemovedSet,
         JobRels, JobNames, Row7, ThumbPaths, Exec, Reasons, FreshCopies, Device6Tree, SharesOnlyReplaced, Parents,
         DeviceObjects;
    PlanEnds(i, b, s, w);
  }

  lemma {:induction false} CountAtLeast(acts: seq<Action>, kind: Kind, p: string, j: int, k: int)
    requires 0 <= j < k < |acts| && Is(acts[j], Dst, kind, p) && Is(acts[k], Dst, kind, p)
    ensures Count(acts, Dst, kind, p) >= 2
    decreases |acts|
  {
    if k < |acts| - 1 {
      CountAtLeast(acts[..|acts| - 1], kind, p, j, k);
    } else {
      CountOne(acts[..k], Dst, kind, p, j);
    }
  }

  lemma {:induction false} FindOne(acts: seq<Action>, kind: Kind, p: string) returns (j: int)
    requires Count(acts, Dst, kind, p) >= 1
    ensures 0 <= j < |acts| && Is(acts[j], Dst, kind, p)
    decreases |acts|
  {
    if Is(acts[|acts| - 1], Dst, kind, p) { j := |acts| - 1; } else { j := FindOne(acts[..|acts| - 1], kind, p); }
  }

  lemma {:induction false} FindTwo(acts: seq<Action>, kind: Kind, p: string) returns (j: int, k: int)
    requires Count(acts, Dst, kind, p) >= 2
    ensures 0 <= j < k < |acts| && Is(acts[j], Dst, kind, p) && Is(acts[k], Dst, kind, p)
    decreases |acts|
  {
    var n := |acts| - 1;
    if Is(acts[n], Dst, kind, p) {
      j := FindOne(acts[..n], kind, p);
      k := n;
    } else {
      j, k := FindTwo(acts[..n], kind, p);
    }
  }

  /** In a run that completes, a path copied to by action `j` and free before action `k` was removed in between. */
  lemma {:induction false} RemovedBetween(w: World, acts: seq<Action>, j: int, k: int, p: string) returns (m: int)
    requires 0 <= j < k < |acts| && !Exec(w, acts).failed && !w.mail
    requires Is(acts[j], Dst, Copy, p) && p !in Exec(w, acts[..k]).world.device
    ensures j < m < k && Is(acts[m], Dst, Remove, p)
  {
    ExecPrefix(w, acts, j + 1);
    ExecPrefix(w, acts, k);
    assert acts[..j + 1][..j] == acts[..j];
    Conservation(w, acts[..j], Dst, p);
    Conservation(w, acts[..k], Dst, p);
    assert p in Exec(w, acts[..j + 1]).world.device;
    m := RemovalWithin(w, acts, j + 1, k, p);
  }

  lemma GoneBy(w: World, a: Action, p: string)
    requires CanStep(w, a) && !w.mail && p in w.device && p !in Step(w, a).device
    ensures Is(a, Dst, Remove, p)
  {
  }

  lemma {:induction false} RemovalWithin(w: World, acts: seq<Action>, j: int, k: int, p: string) returns (m: int)
    requires 0 <= j <= k <= |acts| && !Exec(w, acts).failed && !w.mail
    requires p in Exec(w, acts[..j]).world.device && p !in Exec(w, acts[..k]).world.device
    ensures j <= m < k && Is(acts[m], Dst, Remove, p)
    decreases k
  {
    hide CanStep, Step, Is;
    ExecPrefix(w, acts, k);
    assert j < k;
    assert acts[..k][..k - 1] == acts[..k - 1];
    Conservation(w, acts[..k - 1], Dst, p);
    var v := Exec(w, acts[..k - 1]).world;
    if p in v.device {
      GoneBy(v, acts[k - 1], p);
      m := k - 1;
    } else {
      m := RemovalWithin(w, acts, j, k - 1, p);
    }
  }

  /** A path to which the plan copies twice, or a thumbnail that it removes twice. */
  ghost predicate UsedAgain(acts: seq<Action>, p: string) {
    Count(acts, Dst, if Below(p, THUMBNAIL_FOLDER) then Remove else Copy, p) >= 2
  }

  lemma SharingUsesAgain(c: Ctx, acts: seq<Action>)
    requires SharesOnlyReplaced(c, acts) && Reasons(c, acts) && SharesObject(acts)
    ensures exists p :: UsedAgain(acts, p)
  {
    hide Count, DirFor, CopyFor, ThumbFor, Below;
    var j, k :| 0 <= j < k < |acts| && acts[j].obj.id == acts[k].obj.id;
    assert PairOK(c, acts, j, k) && ReasonAt(c, acts, k);
    var p := acts[k].obj.path;
    if Below(p, THUMBNAIL_FOLDER) {
      CountAtLeast(acts, Remove, p, j, k);
    } else {
      CountAtLeast(acts, Copy, p, j, k + 1);
    }
    assert UsedAgain(acts, p);
  }

  /** A second copy to a path outside the thumbnail folder removes the object of the first. */
  lemma CopyingShares(c: Ctx, acts: seq<Action>, p: string)
    requires SharesOnlyReplaced(c, acts) && FreshCopies(c, acts) && !Exec(c.w0, acts).failed && !c.w0.mail
    requires Count(acts, Dst, Copy, p) >= 2 && !Below(p, THUMBNAIL_FOLDER)
    ensures SharesObject(acts)
  {
    hide Exec, Count, Below;
    var j, k := FindTwo(acts, Copy, p);
    assert FreshAt(c, acts, k);
    var m := RemovedBetween(c.w0, acts, j, k, p);
    assert PairOK(c, acts, j, m) && RemovedMade(c, acts, m);
    if acts[m].obj.id < c.i.next {
      var n := SomeRemoval(acts[..m], acts[m].obj);
      assert acts[n].obj.id == acts[m].obj.id;
    } else {
      var n :| 0 <= n < m && acts[n] == Action(Dst, Copy, acts[m].obj);
    }
  }

  /** Two removals of one thumbnail remove the enumerated object twice. */
  lemma RemovingShares(c: Ctx, acts: seq<Action>, p: string)
    requires Reasons(c, acts) && Count(acts, Dst, Remove, p) >= 2 && Below(p, THUMBNAIL_FOLDER)
    ensures SharesObject(acts)
  {
    hide Count, Below;
    var j, k := FindTwo(acts, Remove, p);
    assert ReasonAt(c, acts, j) && ReasonAt(c, acts, k);
    assert acts[j].obj.id == acts[k].obj.id;
  }

  /** Two actions of a plan share an object exactly when some path is copied to twice, or some thumbnail is removed
      twice. */
  lemma SharingIsUsingAgain(i: Inputs, b: Subsets, w: World, s: PState)
    requires EndedObjects(i, b, w, s)
    ensures SharesObject(s.acts) <==> exists p :: UsedAgain(s.acts, p)
  {
    hide SharesObject, Exec, SharesOnlyReplaced, Reasons, Parents, CtxFor, FreshCopies, Below, Count;
    var c := CtxFor(i, b, w);
    CtxInputs(i, b, w);
    if SharesObject(s.acts) { SharingUsesAgain(c, s.acts); }
    if p :| UsedAgain(s.acts, p) {
      if Below(p, THUMBNAIL_FOLDER) { RemovingShares(c, s.acts, p); } else { CopyingShares(c, s.acts, p); }
    }
  }
}
