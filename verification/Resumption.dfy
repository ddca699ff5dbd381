/** When a run that is interrupted can be resumed: exactly when planning again from where it stopped ends where it would
    have ended. */
module Resumption {
  import opened Paths
  import opened InfoSet
  import opened Plan
  import opened FileSystem
  import opened WellFormed
  import opened Invariant
  import opened Removals
  import opened DeviceRemovals
  import opened Copies
  import opened Setting
  import opened Decisions
  import opened Outcomes
  import opened Table
  import opened Counting
  import opened Actions
  import opened Stability
  import opened Interruption

  // ---------------------------------------------------------------------------------- on libraries

  /** Some of the removals from the source that the table calls for are done. */
  predicate LocalProgress(L: Library, H: Library, D: Library, ig: bool, T: Library, k: string) {
    && (k in T ==> k in L && T[k] == L[k])
    && (k in L && k !in T ==> k in RemoveLocal(L, H, D, ig))
  }

  /** The book `k` was removed from the device to be replaced, and has not been replaced. */
  predicate Half(L: Library, H: Library, D: Library, ig: bool, U: Library, k: string) {
    k in D && k !in U && k in CopyOver(L, H, D, ig)
  }

  /** The book `k` of the device is as it was, or as the table wants it, or half replaced. */
  predicate DeviceProgress(L: Library, H: Library, D: Library, ig: bool, U: Library, k: string) {
    || ((k in U <==> k in D) && (k in U ==> U[k] == D[k]))
    || (k !in U && k in RemoveDevice(L, H, D))
    || (k in U && k in CopyOver(L, H, D, ig) && k in L && U[k] == L[k])
    || Half(L, H, D, ig, U, k)
  }

  ghost predicate Progress(L: Library, H: Library, D: Library, ig: bool, T: Library, U: Library) {
    (forall k :: LocalProgress(L, H, D, ig, T, k)) && forall k :: DeviceProgress(L, H, D, ig, U, k)
  }

  ghost predicate NoneHalf(L: Library, H: Library, D: Library, ig: bool, U: Library) {
    forall k :: !Half(L, H, D, ig, U, k)
  }

  lemma CopyOverIs(L: Library, H: Library, D: Library, ig: bool, k: string)
    ensures k in CopyOver(L, H, D, ig) <==>
              k in L && k !in RemoveLocal(L, H, D, ig) && (k !in D || (k in H && H[k] != L[k]))
  {
    hide RemoveLocal;
  }

  /** What is copied when the table is applied to what is left was to be copied at first. */
  lemma CopyOverShrinks(L: Library, H: Library, D: Library, ig: bool, T: Library, U: Library, k: string)
    requires LocalProgress(L, H, D, ig, T, k) && DeviceProgress(L, H, D, ig, U, k)
    ensures k in CopyOver(T, H, U, ig) ==> k in CopyOver(L, H, D, ig) && k in T && k in L && T[k] == L[k]
  {
    hide CopyOver;
    CopyOverIs(L, H, D, ig, k);
    CopyOverIs(T, H, U, ig, k);
  }

  /** The table applied to what is left gives what it gave at first, for a book that is not half replaced or when
      removals on the device are ignored. */
  lemma ProgressAt(L: Library, H: Library, D: Library, ig: bool, T: Library, U: Library, k: string)
    requires LocalProgress(L, H, D, ig, T, k) && DeviceProgress(L, H, D, ig, U, k) && (ig || !Half(L, H, D, ig, U, k))
    ensures k in T && k !in RemoveLocal(T, H, U, ig) <==> k in L && k !in RemoveLocal(L, H, D, ig)
    ensures k in CopyOver(L, H, D, ig) && k !in CopyOver(T, H, U, ig) ==>
              k in U && U[k] == L[k] && k !in RemoveDevice(T, H, U)
    ensures k !in CopyOver(L, H, D, ig) ==>
              ((k in U && k !in RemoveDevice(T, H, U)) <==> (k in D && k !in RemoveDevice(L, H, D)))
    ensures k !in CopyOver(L, H, D, ig) && k in U ==> k in D && U[k] == D[k]
  {
    hide CopyOver;
    CopyOverIs(L, H, D, ig, k);
    CopyOverIs(T, H, U, ig, k);
  }

  /** A half replaced book is taken for one that was removed from the device: it is lost locally as well. */
  lemma HalfIsLost(L: Library, H: Library, D: Library, T: Library, U: Library, k: string)
    requires LocalProgress(L, H, D, false, T, k) && Half(L, H, D, false, U, k)
    ensures k in NewLocal(L, H, D, false) && k !in NewLocal(T, H, U, false)
  {
    hide CopyOver;
    CopyOverIs(L, H, D, false, k);
  }

  lemma NewLocalResumes(L: Library, H: Library, D: Library, ig: bool, T: Library, U: Library)
    requires Progress(L, H, D, ig, T, U) && (ig || NoneHalf(L, H, D, ig, U))
    ensures NewLocal(T, H, U, ig) == NewLocal(L, H, D, ig)
  {
    hide CopyOver, RemoveLocal, RemoveDevice, Half;
    forall k ensures k in NewLocal(T, H, U, ig) <==> k in NewLocal(L, H, D, ig) {
      assert LocalProgress(L, H, D, ig, T, k) && DeviceProgress(L, H, D, ig, U, k);
      ProgressAt(L, H, D, ig, T, U, k);
    }
    forall k | k in NewLocal(T, H, U, ig) ensures NewLocal(T, H, U, ig)[k] == NewLocal(L, H, D, ig)[k] {
      assert LocalProgress(L, H, D, ig, T, k);
    }
  }

  /** What planning again leaves of the source: the planner reports an error, and nothing is done, if it finds no book
      there. */
  function LocalAgain(T: Library, H: Library, U: Library, ig: bool): Library {
    if T == map[] then T else NewLocal(T, H, U, ig)
  }

  function DeviceAgain(T: Library, H: Library, U: Library, ig: bool): Library {
    if T == map[] then U else NewDevice(T, H, U, ig)
  }

  /** No book that the table removes from the device is there. */
  ghost predicate NoneToRemove(L: Library, H: Library, D: Library, U: Library) {
    forall k :: k in RemoveDevice(L, H, D) ==> k !in U
  }

  /** Wherever the table was left off, planning again completes it, exactly when removals on the device are ignored or
      no book is half replaced, and a local book or no removal from the device is left. */
  lemma TableResumesIff(L: Library, H: Library, D: Library, ig: bool, T: Library, U: Library)
    requires Progress(L, H, D, ig, T, U) && L != map[]
    ensures LocalAgain(T, H, U, ig) == NewLocal(L, H, D, ig) && DeviceAgain(T, H, U, ig) == NewDevice(L, H, D, ig)
            <==> (ig || NoneHalf(L, H, D, ig, U)) && (T != map[] || NoneToRemove(L, H, D, U))
  {
    hide CopyOver, RemoveLocal, RemoveDevice, Half, NewLocal, NewDevice;
    if T == map[] {
      NothingLeft(L, H, D, ig, T, U);
    } else if ig || NoneHalf(L, H, D, ig, U) {
      NewLocalResumes(L, H, D, ig, T, U);
      NewDeviceResumes(L, H, D, ig, T, U);
    } else {
      var k :| Half(L, H, D, ig, U, k);
      assert LocalProgress(L, H, D, ig, T, k);
      HalfIsLost(L, H, D, T, U, k);
    }
  }

  /** When all local books are removed, nothing was to be copied, and the device is complete once nothing is to be
      removed from it. */
  lemma NothingLeft(L: Library, H: Library, D: Library, ig: bool, T: Library, U: Library)
    requires Progress(L, H, D, ig, T, U) && T == map[]
    ensures NoneHalf(L, H, D, ig, U) && NewLocal(L, H, D, ig) == map[]
    ensures U == NewDevice(L, H, D, ig) <==> NoneToRemove(L, H, D, U)
  {
    hide CopyOver, RemoveLocal, RemoveDevice, NewDevice;
    forall k ensures k !in CopyOver(L, H, D, ig) && !(k in L && k !in RemoveLocal(L, H, D, ig)) {
      assert LocalProgress(L, H, D, ig, T, k);
      CopyOverIs(L, H, D, ig, k);
    }
    var Y := NewDevice(L, H, D, ig);
    forall k ensures k in Y <==> k in D && k !in RemoveDevice(L, H, D) { NewDeviceAt(L, H, D, ig, k); }
    if NoneToRemove(L, H, D, U) {
      forall k ensures k in U <==> k in Y { assert DeviceProgress(L, H, D, ig, U, k); }
      forall k | k in U ensures U[k] == Y[k] {
        assert DeviceProgress(L, H, D, ig, U, k);
        NewDeviceAt(L, H, D, ig, k);
      }
    }
  }

  lemma NewDeviceAt(L: Library, H: Library, D: Library, ig: bool, k: string)
    ensures k in NewDevice(L, H, D, ig) <==> k in CopyOver(L, H, D, ig) || (k in D && k !in RemoveDevice(L, H, D))
    ensures k in CopyOver(L, H, D, ig) ==> k in L && NewDevice(L, H, D, ig)[k] == L[k]
    ensures k in NewDevice(L, H, D, ig) && k !in CopyOver(L, H, D, ig) ==> k in D && NewDevice(L, H, D, ig)[k] == D[k]
  {
    hide RemoveLocal, RemoveDevice;
    CopyOverIs(L, H, D, ig, k);
  }

  lemma NewDeviceResumes(L: Library, H: Library, D: Library, ig: bool, T: Library, U: Library)
    requires Progress(L, H, D, ig, T, U) && (ig || NoneHalf(L, H, D, ig, U))
    ensures NewDevice(T, H, U, ig) == NewDevice(L, H, D, ig)
  {
    hide CopyOver, RemoveLocal, RemoveDevice, NewDevice, Half;
    var X, Y := NewDevice(T, H, U, ig), NewDevice(L, H, D, ig);
    forall k ensures k in X <==> k in Y {
      assert LocalProgress(L, H, D, ig, T, k) && DeviceProgress(L, H, D, ig, U, k);
      ProgressAt(L, H, D, ig, T, U, k);
      CopyOverShrinks(L, H, D, ig, T, U, k);
      NewDeviceAt(L, H, D, ig, k);
      NewDeviceAt(T, H, U, ig, k);
    }
    forall k | k in X ensures X[k] == Y[k] {
      assert LocalProgress(L, H, D, ig, T, k) && DeviceProgress(L, H, D, ig, U, k);
      ProgressAt(L, H, D, ig, T, U, k);
      CopyOverShrinks(L, H, D, ig, T, U, k);
      NewDeviceAt(L, H, D, ig, k);
      NewDeviceAt(T, H, U, ig, k);
    }
  }

  // ---------------------------------------------------------------------------------- the second run

  predicate SameAt(a: OIS, b: OIS, k: string) {
    && (k in a <==> k in b)
    && (k in a && k in b ==> a[k] == b[k].(id := a[k].id))
  }

  /** The same objects read twice: only their identities differ. */
  ghost predicate SameData(a: OIS, b: OIS) {
    forall k :: SameAt(a, b, k)
  }

  /** What a run reads from the world `w` and the recorded history. */
  ghost predicate Reads(i: Inputs, w: World, hst: OIS) {
    && LocalView(i.src, w.local) && DeviceView(i.cfg, i.dst, w.device) && OwnObjects(i) && SameData(i.hst, hst)
    && Apart(i) && NoRawKeys(i)
    && i.pics == w.pics.Keys && !i.email && !w.mail
  }

  /** The second run reads what the first one left, with the history that the first one read. */
  ghost predicate Second(i: Inputs, w: World, s: PState, n: nat, j: Inputs) {
    && n <= |s.acts| && j.cfg == i.cfg && j.ignoreRemovals == i.ignoreRemovals
    && Reads(j, Exec(w, s.acts[..n]).world, i.hst)
  }

  /** The run stopped between the removal and the copy of this changed book. */
  ghost predicate SplitsBook(i: Inputs, acts: seq<Action>, n: nat, k: string) {
    k in Row3(i) && k in DeviceBooksAt(i) && Splits(acts, n, At(i.cfg.target, k))
  }

  /** No changed book was removed without being copied again. */
  ghost predicate Whole(i: Inputs, acts: seq<Action>, n: nat) {
    forall k :: !SplitsBook(i, acts, n, k)
  }

  lemma HistorySame(i: Inputs, j: Inputs)
    requires j.cfg == i.cfg && SameData(j.hst, i.hst)
    ensures HistoryView(i.cfg, i.hst) ==> HistoryView(j.cfg, j.hst)
    ensures H0(j) == H0(i)
  {
    hide RelClean, At, Base;
    if HistoryView(i.cfg, i.hst) {
      forall k ensures HistoryAt(j.cfg, j.hst, k) { assert SameAt(j.hst, i.hst, k) && HistoryAt(i.cfg, i.hst, k); }
    }
    var x, y := H0(j), H0(i);
    forall k ensures k in x <==> k in y { assert SameAt(j.hst, i.hst, k); }
    forall k | k in x ensures x[k] == y[k] { assert SameAt(j.hst, i.hst, k); }
  }

  lemma RunProgress(i: Inputs, b: Subsets, w: World, s: PState, n: nat)
    requires RunOK(i, b, w) && IsPlan(i, b, s) && n <= |s.acts|
    ensures var r := Exec(w, s.acts[..n]).world;
            Progress(L0(i, w), H0(i), D0(i, w), i.ignoreRemovals, TreeBooks(i.cfg, r.local, i.cfg.source),
                TreeBooks(i.cfg, r.device, i.cfg.target))
  {
    hide IsPlan, RunOK, Ended, Row3, Row6, Exec, TreeBooks, H0, L0, D0, LocalProgress, DeviceProgress;
    PlanEnds(i, b, s, w);
    var r := Exec(w, s.acts[..n]).world;
    var T, U := TreeBooks(i.cfg, r.local, i.cfg.source), TreeBooks(i.cfg, r.device, i.cfg.target);
    forall k ensures LocalProgress(L0(i, w), H0(i), D0(i, w), i.ignoreRemovals, T, k) {
      LocalBookProgress(i, b, w, s, n, k);
    }
    forall k ensures DeviceProgress(L0(i, w), H0(i), D0(i, w), i.ignoreRemovals, U, k) {
      DeviceBookProgress(i, b, w, s, n, k);
    }
  }

  /** A book is half replaced exactly when the run stopped between its removal and its copy. */
  lemma HalfIff(i: Inputs, b: Subsets, w: World, s: PState, n: nat)
    requires RunOK(i, b, w) && IsPlan(i, b, s) && n <= |s.acts|
    ensures NoneHalf(L0(i, w), H0(i), D0(i, w), i.ignoreRemovals,
              TreeBooks(i.cfg, Exec(w, s.acts[..n]).world.device, i.cfg.target))
            <==> Whole(i, s.acts, n)
  {
    hide IsPlan, RunOK, Ended, Exec, TreeBooks, H0, L0, D0, Half, SplitsBook;
    PlanEnds(i, b, s, w);
    var U := TreeBooks(i.cfg, Exec(w, s.acts[..n]).world.device, i.cfg.target);
    forall k ensures Half(L0(i, w), H0(i), D0(i, w), i.ignoreRemovals, U, k) <==> SplitsBook(i, s.acts, n, k) {
      HalfIs(i, b, w, s, n, k);
    }
  }

  lemma HalfIs(i: Inputs, b: Subsets, w: World, s: PState, n: nat, k: string)
    requires RunOK(i, b, w) && IsPlan(i, b, s) && n <= |s.acts|
    ensures Half(L0(i, w), H0(i), D0(i, w), i.ignoreRemovals,
              TreeBooks(i.cfg, Exec(w, s.acts[..n]).world.device, i.cfg.target), k)
            <==> SplitsBook(i, s.acts, n, k)
  {
    hide *;
    PlanEnds(i, b, s, w);
    var U, p := TreeBooks(i.cfg, Exec(w, s.acts[..n]).world.device, i.cfg.target), At(i.cfg.target, k);
    assert WorldOK(i.cfg, w) && ViewsOK(i, w) by { RunParts(i, b, w); }
    DeviceBookStatus(i, b, w, s, n, k);
    Rows(i, w, k);
    DeviceColumn(i, w, k);
    CopiedIsLocalBook(i, w, k);
    if Splits(s.acts, n, p) {
      EndedRuns(i, b, w, s);
      SplitIsGone(w, s.acts, n, p);
      OneColumn(i, w, Exec(w, s.acts[..n]).world.device, k);
    }
    HalfOrSplit(i, w, s.acts, n, U, k);
  }

  lemma EndedRuns(i: Inputs, b: Subsets, w: World, s: PState)
    requires RunOK(i, b, w) && IsPlan(i, b, s)
    ensures !Exec(w, s.acts).failed && !w.mail
  {
    hide IsPlan, RunOK, Ended, CtxFor, CtxOK, Reasons, Exec;
    PlanEnds(i, b, s, w);
    EndedHasReasons(i, b, w, s);
  }

  lemma SplitIsGone(w: World, acts: seq<Action>, n: nat, p: string)
    requires n <= |acts| && Splits(acts, n, p) && !Exec(w, acts).failed && !w.mail
    ensures p !in Exec(w, acts[..n]).world.device
  {
    ExecPrefix(w, acts, n);
    assert acts[..n][..n - 1] == acts[..n - 1];
    Conservation(w, acts[..n - 1], Dst, p);
  }

  lemma CopiedIsLocalBook(i: Inputs, w: World, k: string)
    ensures k in CopyOver(L0(i, w), H0(i), D0(i, w), i.ignoreRemovals) ==> k !in RemoveDevice(L0(i, w), H0(i), D0(i, w))
  {
    hide L0, H0, D0, CopyOver;
    CopyOverIs(L0(i, w), H0(i), D0(i, w), i.ignoreRemovals, k);
  }

  lemma HalfOrSplit(i: Inputs, w: World, acts: seq<Action>, n: nat, U: Library, k: string)
    requires BookStatus(i, w, acts, n, U, k) && (Splits(acts, n, At(i.cfg.target, k)) ==> k !in U)
    requires k in Row6(i) <==> k in RemoveDevice(L0(i, w), H0(i), D0(i, w))
    requires k in Row3(i) <==> k in CopyOver(L0(i, w), H0(i), D0(i, w), i.ignoreRemovals)
    requires k in DeviceBooksAt(i) <==> k in D0(i, w)
    requires k in CopyOver(L0(i, w), H0(i), D0(i, w), i.ignoreRemovals) ==>
              k !in RemoveDevice(L0(i, w), H0(i), D0(i, w))
    ensures Half(L0(i, w), H0(i), D0(i, w), i.ignoreRemovals, U, k) <==> SplitsBook(i, acts, n, k)
  {
    hide Row3, Row6, DeviceBooksAt, H0, L0, D0, CopyOver, RemoveLocal, RemoveDevice, Splits, At, TreeBooks;
  }

  lemma LocalBookProgress(i: Inputs, b: Subsets, w: World, s: PState, n: nat, k: string)
    requires RunOK(i, b, w) && IsPlan(i, b, s) && n <= |s.acts|
    ensures LocalProgress(L0(i, w), H0(i), D0(i, w), i.ignoreRemovals,
              TreeBooks(i.cfg, Exec(w, s.acts[..n]).world.local, i.cfg.source), k)
  {
    hide IsPlan, RunOK, Ended, Exec, TreeBooks, H0, L0, D0, RemoveLocal;
    PlanEnds(i, b, s, w);
    LocalBookStatus(i, b, w, s, n, k);
  }

  lemma DeviceBookProgress(i: Inputs, b: Subsets, w: World, s: PState, n: nat, k: string)
    requires RunOK(i, b, w) && IsPlan(i, b, s) && n <= |s.acts|
    ensures DeviceProgress(L0(i, w), H0(i), D0(i, w), i.ignoreRemovals,
              TreeBooks(i.cfg, Exec(w, s.acts[..n]).world.device, i.cfg.target), k)
  {
    hide *;
    PlanEnds(i, b, s, w);
    assert WorldOK(i.cfg, w) && ViewsOK(i, w) by { RunParts(i, b, w); }
    DeviceBookStatus(i, b, w, s, n, k);
    Rows(i, w, k);
    StatusProgress(i, w, s.acts, n, TreeBooks(i.cfg, Exec(w, s.acts[..n]).world.device, i.cfg.target), k);
  }

  lemma StatusProgress(i: Inputs, w: World, acts: seq<Action>, n: nat, U: Library, k: string)
    requires BookStatus(i, w, acts, n, U, k)
    requires k in Row6(i) <==> k in RemoveDevice(L0(i, w), H0(i), D0(i, w))
    requires k in Row3(i) <==> k in CopyOver(L0(i, w), H0(i), D0(i, w), i.ignoreRemovals)
    ensures DeviceProgress(L0(i, w), H0(i), D0(i, w), i.ignoreRemovals, U, k)
  {
    hide Row3, Row6, H0, L0, D0, CopyOver, RemoveLocal, RemoveDevice, Splits, At, TreeBooks;
  }

  lemma Columns(i: Inputs, w: World)
    ensures L0(i, w) == TreeBooks(i.cfg, w.local, i.cfg.source) && D0(i, w) == TreeBooks(i.cfg, w.device, i.cfg.target)
  {
  }

  // ---------------------------------------------------------------------------------- its hypotheses

  /** The target and the thumbnail folder are made or kept, never lost. */
  lemma RootsStay(i: Inputs, b: Subsets, w: World, s: PState, n: nat)
    requires RunOK(i, b, w) && IsPlan(i, b, s) && n <= |s.acts|
    ensures var d := Exec(w, s.acts[..n]).world.device;
            && (THUMBNAIL_FOLDER in d <==> THUMBNAIL_FOLDER in w.device)
            && (i.cfg.target in w.device ==> i.cfg.target in d)
  {
    hide IsPlan, RunOK, Ended, Exec, CtxFor, DirFor;
    PlanEnds(i, b, s, w);
    var c, d := CtxFor(i, b, w), Exec(w, s.acts[..n]).world.device;
    RunParts(i, b, w);
    CtxInputs(i, b, w);
    EndedStatus(i, b, w, s, n, i.cfg.target);
    EndedStatus(i, b, w, s, n, THUMBNAIL_FOLDER);
    assert OkDstAt(c, i.cfg.target) && OkDstAt(c, THUMBNAIL_FOLDER);
    RootNotCopied(c, s.acts, n, THUMBNAIL_FOLDER);
    RootNotCopied(c, s.acts, n, i.cfg.target);
    if MayCreate(c, THUMBNAIL_FOLDER, Directory) && DirFor(c.i.cfg, c.rels, THUMBNAIL_FOLDER) {
      DirScope(c, THUMBNAIL_FOLDER);
    }
  }

  lemma DirScope(c: Ctx, p: string)
    requires DirFor(c.i.cfg, c.rels, p)
    ensures AtOrBelow(p, c.i.cfg.target)
  {
  }

  lemma RootNotCopied(c: Ctx, acts: seq<Action>, n: nat, p: string)
    requires CtxOK(c) && Reasons(c, acts) && (p == c.i.cfg.target || p == THUMBNAIL_FOLDER)
    ensures !Splits(acts, n, p)
    ensures !exists from :: CopyFor(c.i.cfg, c.rels, p, from)
    ensures !exists from :: ThumbFor(c.i.cfg, c.names, p, from)
  {
    hide WorldOK, ViewsOK;
    CtxConfig(c);
    ScopesApart(c.i.cfg, c.i.cfg.target);
    assert n < |acts| ==> ReasonAt(c, acts, n);
  }

  /** A device path that was not there before is at or below the target or in the thumbnail folder. */
  lemma NewPath(i: Inputs, b: Subsets, w: World, s: PState, n: nat, k: string)
    requires RunOK(i, b, w) && IsPlan(i, b, s) && n <= |s.acts|
    requires k in Exec(w, s.acts[..n]).world.device && k !in w.device
    ensures AtOrBelow(k, i.cfg.target) || Below(k, THUMBNAIL_FOLDER)
  {
    hide IsPlan, RunOK, Ended, Exec, CtxFor, CtxOK, Reasons, Splits, LocalBetween;
    PlanEnds(i, b, s, w);
    CtxInputs(i, b, w);
    EndedStatus(i, b, w, s, n, k);
  }

  /** In the thumbnail folder only files with names of thumbnails are made; no path of a book is one of them. */
  ghost predicate NoThumbKeys(i: Inputs) {
    forall k :: Below(k, THUMBNAIL_FOLDER) ==> NoBookAt(i, k)
  }

  /** What a driver lists after the run, if outside the managed area it lists no more than before. */
  ghost predicate Relists(i: Inputs, r: World, j: Inputs) {
    && j.cfg == i.cfg && SameData(j.hst, i.hst) && LocalView(j.src, r.local) && DeviceView(j.cfg, j.dst, r.device)
    && forall p :: p in j.dst && !InScope(i.cfg, p) ==> p in i.dst
  }

  /** At or below the target no path starts with the text of the thumbnail folder. */
  lemma TargetNotRaw(cfg: Config, p: string)
    requires ConfigOK(cfg) && AtOrBelow(p, cfg.target)
    ensures !(THUMBNAIL_FOLDER <= p)
  {
    if THUMBNAIL_FOLDER <= p && p != cfg.target { RawPrefix(THUMBNAIL_FOLDER, cfg.target, p); }
  }

  lemma RawPrefix(t: string, x: string, p: string)
    requires t <= p && Below(p, x)
    ensures t <= x || Below(t, x)
  {
    if |t| <= |x| {
      assert x[..|t|] == p[..|x|][..|t|] == p[..|t|];
    } else {
      assert p[..|t|][..|x|] == p[..|x|];
      assert t[|x|] == p[..|t|][|x|];
    }
  }

  /** What is selected starts with the text of the directory. */
  lemma SelectedStarts(os: OIS, k: string, dir: string)
    requires SelectedIn(os, k, dir) && dir != "/"
    ensures dir <= k && k != dir
  {
    if !os[k].dir {
      RawDir(k);
      assert dir == Dir(k)[..|dir|] == k[..|dir|];
    }
  }

  lemma RawDir(k: string)
    requires Dir(k) != "."
    ensures Dir(k) <= k && (|Dir(k)| < |k| || Dir(k) == "/")
  {
  }

  /** In the managed area what merely starts with the text of the target is the thumbnail folder or in it. */
  lemma ScopeApart(cfg: Config, os: OIS, k: string, dir: string)
    requires ConfigOK(cfg) && InScope(cfg, k) && (dir == cfg.target || dir == THUMBNAIL_FOLDER)
    requires SelectedIn(os, k, dir) && !Below(k, dir)
    ensures dir == cfg.target && AtOrBelow(k, THUMBNAIL_FOLDER) && cfg.target <= THUMBNAIL_FOLDER
  {
    RelCleanEnds(cfg.target);
    SelectedStarts(os, k, dir);
    if AtOrBelow(k, cfg.target) {
      TargetNotRaw(cfg, k);
    } else if k != THUMBNAIL_FOLDER && dir == cfg.target {
      RawPrefix(dir, THUMBNAIL_FOLDER, k);
    }
  }

  /** Out of scope the device is as before. */
  lemma OutsideSame(i: Inputs, b: Subsets, w: World, s: PState, n: nat, k: string)
    requires RunOK(i, b, w) && IsPlan(i, b, s) && n <= |s.acts| && !InScope(i.cfg, k)
    ensures Lookup(Exec(w, s.acts[..n]).world.device, k) == Lookup(w.device, k)
  {
    hide IsPlan, RunOK, Ended, Exec, CtxFor, CtxOK, Reasons, LocalBetween, InScope, MayCreate;
    PlanEnds(i, b, s, w);
    var c := CtxFor(i, b, w);
    CtxInputs(i, b, w);
    EndedStatus(i, b, w, s, n, k);
    EndedHasReasons(i, b, w, s);
    ScopedActions(i, b, w, s);
    assert OkDstAt(c, k) by { CtxOkDst(c, k); }
    NoSplit(i.cfg, s.acts, n, k);
    CreatedScope(c, Exec(w, s.acts[..n]).world.device, k);
  }

  lemma NoSplit(cfg: Config, acts: seq<Action>, n: nat, k: string)
    requires !InScope(cfg, k) && forall j :: 0 <= j < |acts| && acts[j].actor.Dst? ==> InScope(cfg, acts[j].obj.path)
    ensures !Splits(acts, n, k)
  {
    hide InScope;
  }

  lemma CtxOkDst(c: Ctx, p: string)
    requires CtxOK(c)
    ensures OkDstAt(c, p)
  {
  }

  lemma CreatedScope(c: Ctx, d: Tree, p: string)
    ensures p in d && MayCreate(c, p, d[p]) ==> InScope(c.i.cfg, p)
  {
  }

  /** A directory listed in the managed area after the run: the thumbnail folder was there before. */
  lemma ThumbFolderListed(i: Inputs, b: Subsets, w: World, s: PState, n: nat, k: string)
    requires RunOK(i, b, w) && IsPlan(i, b, s) && n <= |s.acts|
    requires k in Exec(w, s.acts[..n]).world.device && AtOrBelow(k, THUMBNAIL_FOLDER)
    ensures THUMBNAIL_FOLDER in i.dst && i.dst[THUMBNAIL_FOLDER].dir
  {
    hide IsPlan, Ended, Exec, IsSubsets, OwnObjects, HistoryView, LocalView, LocalTree, SupplementsAreFiles,
         CrossIndexes, ThumbNamesOK;
    hide NoRawKeys, Apart, RelClean, TargetParent;
    PlanEnds(i, b, s, w);
    RootsStay(i, b, w, s, n);
    var d := Exec(w, s.acts[..n]).world.device;
    assert DeviceTree(d) by { EndedBetween(i, b, w, s, n); }
    if k != THUMBNAIL_FOLDER { DeviceAbove(d, k, THUMBNAIL_FOLDER); }
    assert DeviceObjectAt(i.cfg, i.dst, w.device, THUMBNAIL_FOLDER);
  }

  lemma Configured(i: Inputs, b: Subsets, w: World)
    requires RunOK(i, b, w)
    ensures ConfigOK(i.cfg)
  {
    hide ViewsOK;
  }

  lemma SameSelected(i: Inputs, j: Inputs, w: World, d: Tree, k: string, dir: string)
    requires DeviceObjectAt(i.cfg, i.dst, w.device, k) && DeviceObjectAt(j.cfg, j.dst, d, k)
    requires Lookup(d, k) == Lookup(w.device, k)
    requires k in i.dst && i.dst.Keys <= w.device.Keys && SelectedIn(j.dst, k, dir)
    ensures SelectedIn(i.dst, k, dir)
  {
    hide Dir, Base, InScope;
  }

  /** No book has the path of what was listed before, unless something is stored there that was not. */
  lemma NoBookAgain(i: Inputs, b: Subsets, w: World, s: PState, n: nat, j: Inputs, k: string)
    requires RunOK(i, b, w) && IsPlan(i, b, s) && n <= |s.acts| && Relists(i, Exec(w, s.acts[..n]).world, j)
    requires NoBookAt(i, k)
    ensures NoBookAt(j, k)
  {
    hide IsPlan, RunOK, Ended, Exec, LocalView, DeviceView, Ext;
    PlanEnds(i, b, s, w);
    assert SameAt(j.hst, i.hst, k);
    LocalEntryStays(i, b, w, s, n, j, At(i.cfg.source, k));
  }

  /** A path out of scope that is selected now was selected before. */
  lemma SelectedBefore(i: Inputs, b: Subsets, w: World, s: PState, n: nat, j: Inputs, k: string, dir: string)
    requires RunOK(i, b, w) && IsPlan(i, b, s) && n <= |s.acts| && Relists(i, Exec(w, s.acts[..n]).world, j)
    requires SelectedIn(j.dst, k, dir) && !InScope(i.cfg, k)
    ensures SelectedIn(i.dst, k, dir)
  {
    hide IsPlan, Ended, Exec, IsSubsets, OwnObjects, HistoryView, LocalView, SameData, NoRawKeys, Apart, WorldOK,
         Selected, InScope;
    PlanEnds(i, b, s, w);
    var d := Exec(w, s.acts[..n]).world.device;
    OutsideSame(i, b, w, s, n, k);
    assert DeviceObjectAt(j.cfg, j.dst, d, k) && DeviceObjectAt(i.cfg, i.dst, w.device, k);
    SameSelected(i, j, w, d, k, dir);
  }

  lemma ThumbsApartAgain(i: Inputs, b: Subsets, w: World, s: PState, n: nat, j: Inputs, k: string)
    requires RunOK(i, b, w) && IsPlan(i, b, s) && n <= |s.acts| && Relists(i, Exec(w, s.acts[..n]).world, j)
    requires SelectedIn(j.dst, k, THUMBNAIL_FOLDER)
    ensures Below(k, THUMBNAIL_FOLDER)
  {
    hide IsPlan, Ended, Exec, IsSubsets, OwnObjects, HistoryView, LocalView, DeviceView, SameData, NoRawKeys, WorldOK,
         Selected, InScope, BesideAt;
    PlanEnds(i, b, s, w);
    Configured(i, b, w);
    if !Below(k, THUMBNAIL_FOLDER) {
      if InScope(i.cfg, k) {
        ScopeApart(i.cfg, j.dst, k, THUMBNAIL_FOLDER);
      } else {
        SelectedBefore(i, b, w, s, n, j, k, THUMBNAIL_FOLDER);
      }
    }
  }

  /** The thumbnail folder was listed before, so no book has its path if it starts with the text of the target. */
  lemma FolderNoBook(i: Inputs, b: Subsets, w: World)
    requires RunOK(i, b, w) && THUMBNAIL_FOLDER in i.dst && i.dst[THUMBNAIL_FOLDER].dir
    requires i.cfg.target <= THUMBNAIL_FOLDER
    ensures NoBookAt(i, THUMBNAIL_FOLDER)
  {
    hide LocalView, DeviceView, HistoryView, OwnObjects, IsSubsets, NoRawKeys, NoRawSiblings, NoBookAt;
    Configured(i, b, w);
    assert BesideAt(i, THUMBNAIL_FOLDER) && SelectedIn(i.dst, THUMBNAIL_FOLDER, i.cfg.target);
  }

  lemma BesideAgain(i: Inputs, b: Subsets, w: World, s: PState, n: nat, j: Inputs, k: string)
    requires RunOK(i, b, w) && IsPlan(i, b, s) && n <= |s.acts| && Relists(i, Exec(w, s.acts[..n]).world, j)
    requires THUMBNAIL_FOLDER in i.dst && i.cfg.target <= THUMBNAIL_FOLDER ==> NoThumbKeys(i)
    ensures BesideAt(j, k)
  {
    hide IsPlan, Ended, Exec, IsSubsets, OwnObjects, HistoryView, LocalView, DeviceObjectAt, SameData, NoRawKeys,
         WorldOK, Selected, InScope, NoBookAt;
    PlanEnds(i, b, s, w);
    Configured(i, b, w);
    if SelectedIn(j.dst, k, i.cfg.target) && !Below(k, i.cfg.target) {
      if InScope(i.cfg, k) {
        ScopeApart(i.cfg, j.dst, k, i.cfg.target);
        ThumbFolderListed(i, b, w, s, n, k);
        FolderNoBook(i, b, w);
      } else {
        SelectedBefore(i, b, w, s, n, j, k, i.cfg.target);
        assert BesideAt(i, k);
      }
      NoBookAgain(i, b, w, s, n, j, k);
    }
  }

  lemma RawKeysAgain(i: Inputs, b: Subsets, w: World, s: PState, n: nat, j: Inputs)
    requires RunOK(i, b, w) && IsPlan(i, b, s) && n <= |s.acts| && Relists(i, Exec(w, s.acts[..n]).world, j)
    requires NoThumbKeys(i)
    ensures NoRawKeys(j)
  {
    hide IsPlan, Ended, Exec, IsSubsets, OwnObjects, HistoryView, LocalTree, Compatible, Apart, SupplementsAreFiles,
         CrossIndexes, ThumbNamesOK, RelClean, LocalView, Ext;
    PlanEnds(i, b, s, w);
    var d := Exec(w, s.acts[..n]).world.device;
    RootsStay(i, b, w, s, n);
    assert DeviceTree(d) by { EndedBetween(i, b, w, s, n); }
    RootFacts(i, w);
    assert DeviceObjectAt(j.cfg, j.dst, d, i.cfg.target);
    if i.cfg.target !in j.dst {
      forall k ensures RawKeyAt(j, k) {
        assert RawKeyAt(i, k) && DeviceObjectAt(i.cfg, i.dst, w.device, k);
        if k in j.dst && k !in i.dst {
          if Below(k, i.cfg.target) { DeviceAbove(d, k, i.cfg.target); }
          NewPath(i, b, w, s, n, k);
        }
        if k in j.dst { NoBookAgain(i, b, w, s, n, j, k); }
      }
    }
  }

  /** Wherever a run stops: what a driver lists next meets the hypotheses on listings again, if outside the managed area
      it lists no more than before and no book would have the key of a thumbnail; for the hypotheses on entries beside
      the target the latter matters only if the thumbnail folder is such an entry. */
  lemma ListingsKept(i: Inputs, b: Subsets, s: PState, w: World, n: nat, j: Inputs)
    requires RunOK(i, b, w) && IsPlan(i, b, s) && n <= |s.acts| && Relists(i, Exec(w, s.acts[..n]).world, j)
    ensures (THUMBNAIL_FOLDER in i.dst && i.cfg.target <= THUMBNAIL_FOLDER ==> NoThumbKeys(i)) ==> Apart(j)
    ensures NoThumbKeys(i) ==> NoRawKeys(j)
  {
    hide RunOK, Ended, IsPlan, Exec, NoRawKeys, NoThumbKeys, SelectedIn, Below, BesideAt;
    PlanEnds(i, b, s, w);
    forall k | SelectedIn(j.dst, k, THUMBNAIL_FOLDER) ensures Below(k, THUMBNAIL_FOLDER) {
      ThumbsApartAgain(i, b, w, s, n, j, k);
    }
    if THUMBNAIL_FOLDER in i.dst && i.cfg.target <= THUMBNAIL_FOLDER ==> NoThumbKeys(i) {
      forall k ensures BesideAt(j, k) { BesideAgain(i, b, w, s, n, j, k); }
    }
    if NoThumbKeys(i) { RawKeysAgain(i, b, w, s, n, j); }
  }

  lemma LocalEntryStays(i: Inputs, b: Subsets, w: World, s: PState, n: nat, j: Inputs, p: string)
    requires RunOK(i, b, w) && IsPlan(i, b, s) && n <= |s.acts| && Relists(i, Exec(w, s.acts[..n]).world, j)
    ensures BookEntry(j.cfg, j.src, p) ==> BookEntry(i.cfg, i.src, p)
  {
    hide IsPlan, Ended, WorldOK, Exec, IsSubsets, OwnObjects, HistoryView, DeviceView, NoRawKeys, SameData, Base, Ext;
    PlanEnds(i, b, s, w);
    LocalLess(i, b, w, s, n, p);
    assert LocalObject(i.src, w.local, p) && LocalObject(j.src, Exec(w, s.acts[..n]).world.local, p);
  }

  lemma LocalLess(i: Inputs, b: Subsets, w: World, s: PState, n: nat, p: string)
    requires RunOK(i, b, w) && IsPlan(i, b, s) && n <= |s.acts|
    ensures var t := Exec(w, s.acts[..n]).world.local; p in t ==> p in w.local && t[p] == w.local[p]
  {
    hide IsPlan, RunOK, Ended, Exec, CtxFor, CtxOK, Reasons, StatusAt;
    PlanEnds(i, b, s, w);
    CtxInputs(i, b, w);
    EndedStatus(i, b, w, s, n, p);
    assert LocalKept(CtxFor(i, b, w), Exec(w, s.acts[..n]).world.local, p);
  }

  lemma SecondColumns(i: Inputs, w: World, s: PState, n: nat, j: Inputs)
    requires Second(i, w, s, n, j)
    ensures var r := Exec(w, s.acts[..n]).world;
            L0(j, r) == TreeBooks(i.cfg, r.local, i.cfg.source)
                && D0(j, r) == TreeBooks(i.cfg, r.device, i.cfg.target) && H0(j) == H0(i)
  {
    hide Exec, TreeBooks, H0, SameData, LocalView, DeviceView, OwnObjects;
    Columns(j, Exec(w, s.acts[..n]).world);
    HistorySame(i, j);
  }

  lemma SecondViews(i: Inputs, b: Subsets, w: World, s: PState, n: nat, j: Inputs)
    requires RunOK(i, b, w) && IsPlan(i, b, s) && Second(i, w, s, n, j)
    ensures var r := Exec(w, s.acts[..n]).world; WorldOK(j.cfg, r) && ViewsOK(j, r)
  {
    hide IsPlan, WorldOK, IsSubsets, Ended, Exec, LocalView, DeviceView, HistoryView, OwnObjects, NoRawKeys, SameData,
         H0;
    PlanEnds(i, b, s, w);
    EndedBetween(i, b, w, s, n);
    HistorySame(i, j);
  }

  /** The second run meets the hypotheses too. */
  lemma SecondOK(i: Inputs, b: Subsets, w: World, s: PState, n: nat, j: Inputs, d: Subsets)
    requires RunOK(i, b, w) && IsPlan(i, b, s) && Second(i, w, s, n, j) && IsSubsets(j, d)
    ensures RunOK(j, d, Exec(w, s.acts[..n]).world)
  {
    hide IsPlan, WorldOK, ViewsOK, IsSubsets, Ended, Exec, Reads;
    PlanEnds(i, b, s, w);
    SecondViews(i, b, w, s, n, j);
  }

  // ---------------------------------------------------------------------------------- the theorem

  lemma NoLocalBooks(i: Inputs, b: Subsets, w: World)
    requires RunOK(i, b, w)
    ensures b.local == map[] <==> L0(i, w) == map[]
  {
    hide RunOK, LocalBooks, L0;
    RunParts(i, b, w);
    LocalSubset(i, b, w);
    forall k ensures k in LocalBooks(i) <==> k in L0(i, w) { LocalColumn(i, w, k); }
    if L0(i, w) == map[] { assert forall k :: k !in LocalBooks(i); }
    if LocalBooks(i) == map[] { assert forall k :: k !in L0(i, w); }
  }

  /** The second run: PrepareActions reports an error without local books, and then nothing is done. */
  ghost function Again(r: World, d: Subsets, t: PState): Outcome {
    if d.local == map[] then Outcome(r, 0, false) else Exec(r, t.acts)
  }

  /** No book that the table removes from the device is still there. */
  ghost predicate NoneLeftToRemove(i: Inputs, w: World, r: World) {
    forall k :: k in Row6(i) ==> k !in TreeBooks(i.cfg, r.device, i.cfg.target)
  }

  lemma NoneToRemoveIs(i: Inputs, w: World, r: World)
    requires WorldOK(i.cfg, w) && ViewsOK(i, w)
    ensures NoneToRemove(L0(i, w), H0(i), D0(i, w), TreeBooks(i.cfg, r.device, i.cfg.target)) <==>
              NoneLeftToRemove(i, w, r)
  {
    hide WorldOK, ViewsOK, TreeBooks, L0, H0, D0, RemoveDevice, Row6;
    forall k ensures k in Row6(i) <==> k in RemoveDevice(L0(i, w), H0(i), D0(i, w)) { Rows(i, w, k); }
  }

  lemma AgainBooks(j: Inputs, d: Subsets, r: World, t: PState)
    requires RunOK(j, d, r) && (d.local != map[] ==> IsPlan(j, d, t))
    ensures !Again(r, d, t).failed
    ensures TreeBooks(j.cfg, Again(r, d, t).world.local, j.cfg.source)
              == LocalAgain(L0(j, r), H0(j), D0(j, r), j.ignoreRemovals)
    ensures TreeBooks(j.cfg, Again(r, d, t).world.device, j.cfg.target)
              == DeviceAgain(L0(j, r), H0(j), D0(j, r), j.ignoreRemovals)
  {
    hide RunOK, IsPlan, Exec, TreeBooks, H0, L0, D0, NewLocal, NewDevice;
    NoLocalBooks(j, d, r);
    Columns(j, r);
    if d.local != map[] { DecisionTable(j, d, t, r); }
  }

  /** Stop a run after any number of actions and save no history; plan again from there, in any order, and complete.
      The second run does not fail, and the books end up as after the run that was not interrupted, if and only if two
      things hold: removals on the device are ignored, or the run did not stop between the removal of a changed book
      and the copy that replaces it; and a local book is left, or no book that was to be removed from the device is
      still there. */
  lemma ResumableIff(i: Inputs, b: Subsets, s: PState, w: World, n: nat, j: Inputs, d: Subsets, t: PState)
    requires RunOK(i, b, w) && IsPlan(i, b, s) && b.local != map[]
    requires Second(i, w, s, n, j) && IsSubsets(j, d) && (d.local != map[] ==> IsPlan(j, d, t))
    ensures var whole, r := Exec(w, s.acts).world, Exec(w, s.acts[..n]).world;
            var rest := Again(r, d, t);
            && !rest.failed
            && (   TreeBooks(i.cfg, rest.world.local, i.cfg.source) == TreeBooks(i.cfg, whole.local, i.cfg.source)
                && TreeBooks(i.cfg, rest.world.device, i.cfg.target) == TreeBooks(i.cfg, whole.device, i.cfg.target)
                <==> (i.ignoreRemovals || Whole(i, s.acts, n)) && (d.local != map[] || NoneLeftToRemove(i, w, r)))
  {
    hide RunOK, Ended, IsPlan, Exec, TreeBooks, H0, L0, D0, NewLocal, NewDevice, Whole, NoneHalf, IsSubsets, Progress,
         Reads, Again, NoneToRemove, NoneLeftToRemove, LocalAgain, DeviceAgain;
    var r := Exec(w, s.acts[..n]).world;
    PlanEnds(i, b, s, w);
    SecondOK(i, b, w, s, n, j, d);
    DecisionTable(i, b, s, w);
    AgainBooks(j, d, r, t);
    RunProgress(i, b, w, s, n);
    HalfIff(i, b, w, s, n);
    SecondColumns(i, w, s, n, j);
    NoLocalBooks(i, b, w);
    NoLocalBooks(j, d, r);
    RunParts(i, b, w);
    NoneToRemoveIs(i, w, r);
    TableResumesIff(L0(i, w), H0(i), D0(i, w), i.ignoreRemovals, L0(j, r), D0(j, r));
  }

  /** Without a local book left, a book that was to be removed from the device stays there. */
  lemma LastBookLost(L: Library, H: Library, D: Library, U: Library, k: string)
    requires Progress(L, H, D, false, map[], U) && k in RemoveDevice(L, H, D) && k in U
    ensures k in DeviceAgain(map[], H, U, false) && k !in NewDevice(L, H, D, false)
  {
    hide CopyOver, RemoveLocal;
    CopyOverIs(L, H, D, false, k);
    NewDeviceAt(L, H, D, false, k);
  }
}
