/** What becomes of the files that go with a book: its page indexes and its thumbnail. */
module Companions {
  import opened Paths
  import opened InfoSet
  import opened Plan
  import opened FileSystem
  import opened WellFormed
  import opened Invariant
  import opened LocalPhase
  import opened Removals
  import opened DeviceRemovals
  import opened Copies
  import opened CopyLoop
  import opened Setting
  import opened Decisions
  import opened Outcomes
  import opened Table
  import opened Theorems

  // ---------------------------------------------------------------------------------- page indexes

  /** `x` is where the page index of the book `k` may be, whose path is `stem` and an extension. */
  predicate IndexOf(k: string, stem: string, x: string) {
    stem + Ext(k) == k && (x == stem + ".apnx" || x == stem + ".sdr/" + Base(stem) + ".apnx")
  }

  lemma IndexIsVictim(root: string, k: string, stem: string, x: string)
    requires RootPath(root) && RelClean(k) && IndexOf(k, stem, x)
    ensures VictimOf(root, k, At(root, x))
  {
    hide Supplements, Ext, Base, At, RelClean, RootPath;
    SupplementsUnder(root, k, stem);
  }

  /** A page index of a removed local book is not in the source after a run. */
  lemma LocalIndexGoes(i: Inputs, b: Subsets, s: PState, w: World, k: string, stem: string, x: string)
    requires RunOK(i, b, w) && IsPlan(i, b, s) && k in Row7(i) && IndexOf(k, stem, x)
    ensures At(i.cfg.source, x) !in Exec(w, s.acts).world.local
  {
    hide RunOK, IsPlan, Ended, WorldOK, ViewsOK, Exec, LocalBooks, HistoryBooks, DeviceBooksAt, Supplements, Ext,
         Base, At, RootPath, BookKey, IndexOf, VictimOf, DeviceForm, Device6Tree, CtxFor;
    var q := At(i.cfg.source, x);
    PlanEnds(i, b, s, w);
    RunParts(i, b, w);
    RootFacts(i, w);
    Row7Local(i, k);
    LocalBookFacts(i, w, k);
    KeyClean(k);
    IndexIsVictim(i.cfg.source, k, stem, x);
    EndedLocal(i, b, w, s);
    EndedDevice(i, b, w, s);
    if q in i.src { assert q in RemovedSet(i.src, i.cfg.source, Row7(i)); }
    assert FileKept(i.src, RemovedSet(i.src, i.cfg.source, Row7(i)), s.src, q);
  }

  lemma Row7Local(i: Inputs, k: string)
    requires k in Row7(i)
    ensures k in LocalBooks(i)
  {
    hide LocalBooks, HistoryBooks, DeviceBooksAt;
  }

  /** What is left in the source and goes with a copied book is copied with it. */
  lemma VictimCopied(i: Inputs, b: Subsets, s: PState, w: World, k: string, x: string)
    requires RunOK(i, b, w) && IsPlan(i, b, s) && k in Row3(i) && VictimOf(i.cfg.source, k, At(i.cfg.source, x))
    requires At(i.cfg.source, x) in Exec(w, s.acts).world.local
    ensures x in CtxFor(i, b, w).rels
  {
    hide RunOK, IsPlan, Ended, WorldOK, ViewsOK, Exec, LocalBooks, HistoryBooks, DeviceBooksAt, Supplements, Ext,
         Base, RootPath, BookKey, VictimOf, DeviceForm, Device6Tree, JobNames, ThumbPaths, Row3, Row7, Row6;
    var q := At(i.cfg.source, x);
    PlanEnds(i, b, s, w);
    RunParts(i, b, w);
    EndedLocal(i, b, w, s);
    EndedDevice(i, b, w, s);
    assert FileKept(i.src, RemovedSet(i.src, i.cfg.source, Row7(i)), s.src, q);
    assert q in i.src by { SourceOnly(i, b, w, s, q); }
    Row3Local(i, k);
    LocalVictim(i, w, k, q);
    assert q in Remaining(i);
    assert q in RemovedSet(Remaining(i), i.cfg.source, Row3(i));
    assert Below(q, i.cfg.source) && Rel(q, i.cfg.source) == x;
  }

  lemma SourceOnly(i: Inputs, b: Subsets, w: World, s: PState, q: string)
    requires Ended(i, b, w, s) && q in s.src
    ensures q in i.src
  {
    hide Inv, CtxOK, Reasons, Objects, Untouched, DirsAreDirs, ThumbsSeen, BaseOK, DeviceForm, RemovedSet, JobRels,
         JobNames, Row7, Row6, ThumbPaths, Device6Tree;
  }

  /** A page index of a copied book that is in the source after a run is on the device with the same content. */
  lemma IndexCopied(i: Inputs, b: Subsets, s: PState, w: World, k: string, stem: string, x: string)
    requires RunOK(i, b, w) && IsPlan(i, b, s) && k in Row3(i) && IndexOf(k, stem, x)
    requires At(i.cfg.source, x) in Exec(w, s.acts).world.local
    ensures Lookup(Exec(w, s.acts).world.device, At(i.cfg.target, x)) == Lookup(w.local, At(i.cfg.source, x))
  {
    hide RunOK, IsPlan, WorldOK, ViewsOK, Exec, LocalBooks, HistoryBooks, DeviceBooksAt, Supplements, Ext, Base,
         RootPath, BookKey, IndexOf, VictimOf, Device6Tree, CtxFor, Row3;
    RunParts(i, b, w);
    RootFacts(i, w);
    Row3Local(i, k);
    LocalBookFacts(i, w, k);
    KeyClean(k);
    IndexIsVictim(i.cfg.source, k, stem, x);
    VictimCopied(i, b, s, w, k, x);
    CtxInputs(i, b, w);
    DeviceAfterRun(i, b, s, w, At(i.cfg.target, x));
  }

  /** A page index of a book that is removed from the device is not there after a run, unless it was copied anew. */
  lemma DeviceIndexGoes(i: Inputs, b: Subsets, s: PState, w: World, k: string, stem: string, x: string)
    requires RunOK(i, b, w) && IsPlan(i, b, s) && k in Row6(i) && IndexOf(k, stem, x)
    ensures var d := Exec(w, s.acts).world.device;
            At(i.cfg.target, x) in d ==> Lookup(d, At(i.cfg.target, x)) == Lookup(w.local, At(i.cfg.source, x))
  {
    hide RunOK, IsPlan, WorldOK, ViewsOK, Exec, LocalBooks, HistoryBooks, DeviceBooksAt, Supplements, Ext, Base,
         RootPath, BookKey, IndexOf, VictimOf, CtxFor, Row6, Row7, ThumbPaths, NamesOf, DirFor;
    var p := At(i.cfg.target, x);
    RunParts(i, b, w);
    RootFacts(i, w);
    Row6Device(i, w, k);
    KeyClean(k);
    IndexIsVictim(i.cfg.target, k, stem, x);
    CtxInputs(i, b, w);
    DeviceAfterRun(i, b, s, w, p);
    ScopesApart(i.cfg, p);
    DeviceMember(i, w, p);
    if p in i.dst { assert p in RemovedSet(i.dst, i.cfg.target, Row6(i)); }
    if DirFor(i.cfg, CtxFor(i, b, w).rels, p) { DirIsLocal(i, b, w, x); }
  }

  /** A directory that the copies need is one of the source. */
  lemma DirIsLocal(i: Inputs, b: Subsets, w: World, x: string)
    requires RunOK(i, b, w) && DirFor(i.cfg, CtxFor(i, b, w).rels, At(i.cfg.target, x))
    ensures Lookup(w.local, At(i.cfg.source, x)) == Some(Directory)
  {
    hide RunOK, WorldOK, ViewsOK, CtxFor, Row3, Row7, Row6;
    var c := CtxFor(i, b, w);
    CtxForOK(i, b, w);
    CtxInputs(i, b, w);
    SourceIsTree(c);
    var r :| r in c.rels && Below(At(i.cfg.target, r), At(i.cfg.target, x));
    RerootBelow(i.cfg.target, r, x);
    RerootBelow(i.cfg.source, r, x);
    LocalDirAbove(c, r, x);
  }

  lemma LocalDirAbove(c: Ctx, r: string, x: string)
    requires CtxOK(c) && r in c.rels && SourceShape(c.i.src, c.i.cfg.source)
    requires Below(At(c.i.cfg.source, r), At(c.i.cfg.source, x))
    ensures Lookup(c.w0.local, At(c.i.cfg.source, x)) == Some(Directory)
  {
    var q := At(c.i.cfg.source, x);
    assert RelAt(c, r);
    AboveIsDir(c.i.src, c.i.cfg.source, At(c.i.cfg.source, r), q);
    assert LocalObject(c.i.src, c.w0.local, q);
  }

  // ---------------------------------------------------------------------------------- thumbnails

  /** The thumbnail `n` was extracted from the book `k`, which is copied, and the device has a place for it. */
  ghost predicate ThumbCopiedFor(i: Inputs, w: World, k: string, n: string) {
    && k in Row3(i) && At(i.cfg.source, k) in w.local && w.local[At(i.cfg.source, k)].File?
    && w.local[At(i.cfg.source, k)].thumb == n
    && Join(i.cfg.thumbDir, n) in w.pics && "system/thumbnails" in w.device
  }

  /** The thumbnail `n` was recorded for the book `k`, which is removed on one side or the other. */
  ghost predicate ThumbRecordedFor(i: Inputs, k: string, n: string) {
    k in Row6(i) + Row7(i) && k in i.hst && i.hst[k].thumb == n
  }

  /** After a run a thumbnail is the one extracted from a copied book, or is gone because it was recorded for a removed
      book, or else is as it was. */
  lemma ThumbnailAfter(i: Inputs, b: Subsets, s: PState, w: World, n: string)
    requires RunOK(i, b, w) && IsPlan(i, b, s) && ThumbNameOK(i.cfg, w.device, n)
    ensures Lookup(Exec(w, s.acts).world.device, "system/thumbnails/" + n)
            == if exists k :: ThumbCopiedFor(i, w, k, n) then Lookup(w.pics, Join(i.cfg.thumbDir, n))
               else if exists k :: ThumbRecordedFor(i, k, n) then None
               else Lookup(w.device, "system/thumbnails/" + n)
  {
    hide RunOK, IsPlan, WorldOK, ViewsOK, Exec, LocalBooks, HistoryBooks, DeviceBooksAt, Row6, Row7, Row3, CtxFor,
         Device6Tree, ThumbNameOK, NamesOf, ThumbCopiedFor, ThumbRecordedFor;
    var p := At(THUMBNAIL_FOLDER, n);
    assert p == "system/thumbnails/" + n;
    RunParts(i, b, w);
    CtxInputs(i, b, w);
    DeviceAfterRun(i, b, s, w, p);
    if Below(p, i.cfg.target) { ScopesApart(i.cfg, p); }
    NotEmptyName(i, w, n);
    NameCopied(i, b, w, n);
    ThumbStays(i, b, w, n);
    NotTargetDir(i, b, w, p);
  }

  lemma NotEmptyName(i: Inputs, w: World, n: string)
    requires ThumbNameOK(i.cfg, w.device, n)
    ensures n != ""
  {
  }

  lemma NotTargetDir(i: Inputs, b: Subsets, w: World, p: string)
    requires ConfigOK(i.cfg) && AtOrBelow(p, THUMBNAIL_FOLDER)
    ensures !DirFor(i.cfg, CtxFor(i, b, w).rels, p)
  {
    hide CtxFor, ConfigOK;
    if AtOrBelow(p, i.cfg.target) { ScopesApart(i.cfg, p); }
  }

  /** The thumbnail of one book of row 3, as the plan and as the trees have it. */
  lemma JobIs(i: Inputs, b: Subsets, w: World, k: string, n: string)
    requires RunOK(i, b, w) && n != "" && k in Row3(i)
    ensures ThumbJob(i, i.ThumbsAvailable(), Remaining(i), k) == Some(n) <==> ThumbCopiedFor(i, w, k, n)
  {
    hide RunOK, WorldOK, ViewsOK, LocalBooks, HistoryBooks, DeviceBooksAt, Row3, Row7, Remaining, Join, BookKey;
    RunParts(i, b, w);
    Row3Local(i, k);
    LocalBookFacts(i, w, k);
    KeptBook(i, w, k);
    RemainingSub(i);
    DeviceMode(i, b, w);
    FolderListed(i, b, w);
  }

  lemma FolderListed(i: Inputs, b: Subsets, w: World)
    requires RunOK(i, b, w)
    ensures i.ThumbsAvailable() <==> "system/thumbnails" in w.device
  {
    hide WorldOK;
    assert DeviceObjectAt(i.cfg, i.dst, w.device, THUMBNAIL_FOLDER);
  }

  lemma NameCopied(i: Inputs, b: Subsets, w: World, n: string)
    requires RunOK(i, b, w) && n != ""
    ensures n in CtxFor(i, b, w).names <==> exists k :: ThumbCopiedFor(i, w, k, n)
  {
    hide RunOK, Row3, Row7, Remaining, ThumbJob, JobRels, RemovedSet, ThumbPaths, ThumbCopiedFor;
    var avail, rem := i.ThumbsAvailable(), Remaining(i);
    if n in CtxFor(i, b, w).names {
      var k :| k in Row3(i) && ThumbJob(i, avail, rem, k) == Some(n);
      JobIs(i, b, w, k, n);
    }
    if k :| ThumbCopiedFor(i, w, k, n) {
      assert k in Row3(i) by { CopiedIsRow3(i, w, k, n); }
      JobIs(i, b, w, k, n);
      assert n in JobNames(i, avail, rem, Row3(i));
    }
  }

  lemma CopiedIsRow3(i: Inputs, w: World, k: string, n: string)
    requires ThumbCopiedFor(i, w, k, n)
    ensures k in Row3(i)
  {
  }

  lemma RecordedIs(i: Inputs, n: string)
    ensures n in NamesOf(i.hst, Row7(i)) || n in NamesOf(i.hst, Row6(i)) <==> exists k :: ThumbRecordedFor(i, k, n)
  {
    hide Row7, Row6;
    if n in NamesOf(i.hst, Row7(i)) {
      var k :| k in Row7(i) && k in i.hst && i.hst[k].thumb == n;
      assert ThumbRecordedFor(i, k, n);
    }
    if n in NamesOf(i.hst, Row6(i)) {
      var k :| k in Row6(i) && k in i.hst && i.hst[k].thumb == n;
      assert ThumbRecordedFor(i, k, n);
    }
  }

  lemma ThumbStays(i: Inputs, b: Subsets, w: World, n: string)
    requires RunOK(i, b, w) && ThumbNameOK(i.cfg, w.device, n)
    ensures Lookup(Device6Tree(i, b, w), At(THUMBNAIL_FOLDER, n))
            == if exists k :: ThumbRecordedFor(i, k, n) then None else Lookup(w.device, At(THUMBNAIL_FOLDER, n))
  {
    hide RunOK, WorldOK, ViewsOK, Row6, Row7, CtxFor, Device6Tree, ThumbNameOK, NamesOf, ThumbRecordedFor;
    var p := At(THUMBNAIL_FOLDER, n);
    RunParts(i, b, w);
    FolderListed(i, b, w);
    RecordedIs(i, n);
    DeviceMember(i, w, p);
    Device6Sub(i, b, w, p);
    if i.ThumbsAvailable() {
      ThumbKnown(i, b, w, n);
      ThumbLeft(i, b, w, n);
    } else {
      NoFolder(i, w, n);
    }
  }

  lemma Device6Sub(i: Inputs, b: Subsets, w: World, p: string)
    ensures p in Device6Tree(i, b, w) ==> p in w.device && Device6Tree(i, b, w)[p] == w.device[p]
  {
    hide ThumbPaths, NamesOf, Gone6, Row6, Row7, CtxFor;
  }

  lemma NoFolder(i: Inputs, w: World, n: string)
    requires WorldOK(i.cfg, w) && ThumbNameOK(i.cfg, w.device, n) && THUMBNAIL_FOLDER !in w.device
    ensures At(THUMBNAIL_FOLDER, n) !in w.device
  {
    var p := At(THUMBNAIL_FOLDER, n);
    assert DeviceAt(w.device, p);
    NameIn(THUMBNAIL_FOLDER, n);
  }
}
