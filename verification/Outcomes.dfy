/** Where the plan ends: the copy loop applied to row 3, and the main theorem that the plan runs and predicts. */
module Outcomes {
  import opened Paths
  import opened InfoSet
  import opened Plan
  import opened FileSystem
  import opened WellFormed
  import opened Invariant
  import opened LocalPhase
  import opened Removals
  import opened DeviceRemovals
  import opened Copies
  import opened CopyLoop
  import opened Setting
  import opened Decisions

  // ---------------------------------------------------------------------------------- row 3

  ghost predicate InRow3(i: Inputs, k: string) {
    && k in LocalBooks(i) && k !in Row7(i)
    && (k !in DeviceBooksAt(i) || (k in HistoryBooks(i) && HistoryBooks(i)[k].pid != LocalBooks(i)[k].pid))
  }

  lemma Row3Are(i: Inputs, k: string)
    ensures k in Row3(i) <==> InRow3(i, k)
  {
    hide LocalBooks, HistoryBooks, DeviceBooksAt, Row7;
  }

  lemma State6Shrinks(i: Inputs, b: Subsets, w: World, s7: PState, s6: PState)
    requires Ready6(i, b, w, s7, s6)
    ensures s6.dst.Keys <= i.dst.Keys && s6.src == s7.src && s6.next == i.next
  {
    hide CtxOK, Good, Reasons, Objects, Untouched, ThumbsLive, Gone6, JobRels, JobNames, RemovedSet;
    MirrorShrinks(CtxFor(i, b, w), Row7(i), s6);
  }

  lemma Device6Seen(i: Inputs, b: Subsets, w: World, s7: PState, s6: PState, k: string)
    requires RunOK(i, b, w) && s7.dst.Keys <= i.dst.Keys && s6.dst.Keys <= i.dst.Keys && k in LocalBooks(i)
    ensures k in Device6(i, b, s7, s6) <==> k in DeviceBooksAt(i)
  {
    hide RunOK, LocalBooks, DeviceBooksAt, DeviceBooks, Objs6, Row6;
    DeviceBooksSeen(i, b, w, s6);
    Objs6Keys(i, b, w, s7);
    Row6Are(i, k);
  }

  lemma Objs3Member(i: Inputs, b: Subsets, w: World, s7: PState, s6: PState, k: string)
    requires RunOK(i, b, w) && s7.dst.Keys <= i.dst.Keys && s6.dst.Keys <= i.dst.Keys
    ensures k in Objs3(i, b, s7, s6) <==> k in Row3(i)
    ensures k in Objs3(i, b, s7, s6) ==> k in LocalBooks(i) && Objs3(i, b, s7, s6)[k] == LocalBooks(i)[k]
  {
    hide RunOK, LocalBooks, DeviceBooksAt, HistoryBooks, Row7, Row3, Local7, Device6;
    Local7Is(i, b, w);
    HistorySubset(i, b, w);
    Row3Are(i, k);
    if k in LocalBooks(i) {
      Device6Seen(i, b, w, s7, s6, k);
      LocalBookNotDir(i, k);
    }
  }

  lemma LocalBookNotDir(i: Inputs, k: string)
    requires k in LocalBooks(i)
    ensures !LocalBooks(i)[k].dir && At(i.cfg.source, k) in i.src && LocalBooks(i)[k] == i.src[At(i.cfg.source, k)]
  {
  }

  // ---------------------------------------------------------------------------------- the start of the copy loop

  /** Where a directory may have to be created there is a directory or nothing. */
  lemma DirPlace(c: Ctx, p: string)
    requires CtxOK(c) && DirFor(c.i.cfg, c.rels, p) && p in c.i.dst
    ensures c.i.dst[p].dir
  {
    var cfg := c.i.cfg;
    assert DeviceObjectAt(cfg, c.i.dst, c.w0.device, p);
    if p != cfg.target {
      var r :| r in c.rels && Below(At(cfg.target, r), p);
      var q := Rel(p, cfg.target);
      AtRel(p, cfg.target);
      RerootBelow(cfg.target, r, q);
      RerootBelow(cfg.source, r, q);
      SourceIsTree(c);
      assert RelAt(c, r);
      AboveIsDir(c.i.src, cfg.source, At(cfg.source, r), At(cfg.source, q));
      assert LocalObject(c.i.src, c.w0.local, At(cfg.source, q));
      assert SameKind(c.w0.local, At(cfg.source, q), c.w0.device, At(cfg.target, q));
    }
  }

  lemma DirsStart(c: Ctx, used: set<string>, s: PState)
    requires Inv(c, used, s) && s.next == c.i.next
    ensures DirsAreDirs(c, s)
  {
    hide WorldOK, ViewsOK, Good, Reasons, Objects, DirFor;
    forall p ensures DirKind(c, s, p) {
      if DirFor(c.i.cfg, c.rels, p) && p in s.dst {
        AllOriginal(c, used, s, p);
        DirPlace(c, p);
      }
    }
  }

  lemma FormStart(c: Ctx, dev6: Tree)
    ensures DeviceForm(c, dev6, {}, {}, dev6)
  {
    forall p ensures FormAt(c, dev6, {}, {}, dev6, p) {}
  }

  /** The device before the copies. */
  ghost function Device6Tree(i: Inputs, b: Subsets, w: World): Tree {
    w.device - ThumbPaths(b.thumbs, NamesOf(i.hst, Row7(i)))
             - Gone6(CtxFor(i, b, w), b.thumbs - NamesOf(i.hst, Row7(i)), Row6(i))
  }

  lemma Now6Is(i: Inputs, b: Subsets, w: World, s7: PState, s6: PState)
    requires Ready7(i, b, w, s7) && Ready6(i, b, w, s7, s6)
    ensures Now(CtxFor(i, b, w), s6).device == Device6Tree(i, b, w)
    ensures s6.thumbs == b.thumbs - NamesOf(i.hst, Row7(i)) - NamesOf(i.hst, Row6(i))
  {
    hide Inv, Untouched, ThumbsLive, LocalInv, RemovedSet, JobRels, JobNames, ThumbPaths, NamesOf, Row7, Row6, Gone6;
  }

  /** A thumbnail name is still known after the removals exactly when its file is still there. */
  lemma ThumbLeft(i: Inputs, b: Subsets, w: World, n: string)
    requires RunOK(i, b, w) && i.ThumbsAvailable() && ThumbNameOK(i.cfg, w.device, n)
    ensures n in b.thumbs - NamesOf(i.hst, Row7(i)) - NamesOf(i.hst, Row6(i))
            <==> At(THUMBNAIL_FOLDER, n) in i.dst && At(THUMBNAIL_FOLDER, n) in Device6Tree(i, b, w)
  {
    hide Row7, Row6, WorldOK, ViewsOK, NamesOf, IsSubsets, ThumbNameOK, JobRels, JobNames, ThumbPaths, RemovedSet;
    ThumbKnown(i, b, w, n);
    DeviceMode(i, b, w);
    ThumbNotVictim(i, w, n);
    var t, N7, N6 := b.thumbs, NamesOf(i.hst, Row7(i)), NamesOf(i.hst, Row6(i));
    ThumbPathOf(t, N7, n);
    ThumbPathOf(t - N7, N6, n);
    ThumbLeftSets(CtxFor(i, b, w), w.device, t, N7, N6, RemovedSet(i.dst, i.cfg.target, Row6(i)), n);
  }

  lemma ThumbNotVictim(i: Inputs, w: World, n: string)
    requires WorldOK(i.cfg, w) && ViewsOK(i, w)
    ensures At(THUMBNAIL_FOLDER, n) !in RemovedSet(i.dst, i.cfg.target, Row6(i))
  {
    hide VictimOf, LocalBooks, HistoryBooks, DeviceBooksAt, Compatible, LocalTree, DeviceTree, SupplementsAreFiles;
    var p := At(THUMBNAIL_FOLDER, n);
    if p in RemovedSet(i.dst, i.cfg.target, Row6(i)) {
      var k :| k in Row6(i) && VictimOf(i.cfg.target, k, p);
      InHistory(i, k);
      DeviceVictimFacts(i, w, k, p);
      ScopesApart(i.cfg, p);
    }
  }

  lemma InHistory(i: Inputs, k: string)
    requires k in Row6(i)
    ensures k in i.hst
  {
  }

  lemma ThumbPathOf(thumbs: OIS, names: set<string>, n: string)
    ensures At(THUMBNAIL_FOLDER, n) in ThumbPaths(thumbs, names) <==> n in names && n in thumbs
  {
    if At(THUMBNAIL_FOLDER, n) in ThumbPaths(thumbs, names) {
      var m :| m in names && m in thumbs && At(THUMBNAIL_FOLDER, m) == At(THUMBNAIL_FOLDER, n);
      AtInjective(THUMBNAIL_FOLDER, m, n);
    }
  }

  lemma ThumbLeftSets(c: Ctx, d: Tree, t: OIS, N7: set<string>, N6: set<string>, victims: set<string>, n: string)
    requires At(THUMBNAIL_FOLDER, n) !in victims
    requires At(THUMBNAIL_FOLDER, n) in ThumbPaths(t, N7) <==> n in N7 && n in t
    requires At(THUMBNAIL_FOLDER, n) in ThumbPaths(t - N7, N6) <==> n in N6 && n in t - N7
    ensures At(THUMBNAIL_FOLDER, n) in d - ThumbPaths(t, N7) - (victims + ThumbPaths(t - N7, N6))
            <==> At(THUMBNAIL_FOLDER, n) in d && !(n in t && (n in N7 || n in N6))
  {
    hide ThumbPaths, At;
  }

  lemma ThumbsSeenStart(i: Inputs, b: Subsets, w: World, s7: PState, s6: PState)
    requires RunOK(i, b, w) && Ready7(i, b, w, s7) && Ready6(i, b, w, s7, s6)
    ensures ThumbsSeen(CtxFor(i, b, w), {}, s6)
  {
    hide RunOK, Ready7, Row3, Row6, Row7, Device6Tree, Inv, Untouched, RemovedSet, Gone6;
    var c := CtxFor(i, b, w);
    Now6Is(i, b, w, s7, s6);
    forall n ensures ThumbSeen(c, {}, s6, n) {
      if n in c.names { ThumbSeenStart(i, b, w, s7, s6, n); }
    }
  }

  lemma RemainingSub(i: Inputs)
    ensures forall p :: p in Remaining(i) ==> p in i.src && Remaining(i)[p] == i.src[p]
  {
    hide RemovedSet, Row7;
  }

  lemma RunParts(i: Inputs, b: Subsets, w: World)
    requires RunOK(i, b, w)
    ensures WorldOK(i.cfg, w) && ViewsOK(i, w) && ConfigOK(i.cfg)
  {
    hide ViewsOK, IsSubsets;
  }

  lemma ThumbSeenStart(i: Inputs, b: Subsets, w: World, s7: PState, s6: PState, n: string)
    requires RunOK(i, b, w) && Ready6(i, b, w, s7, s6) && n in CtxFor(i, b, w).names
    requires Now(CtxFor(i, b, w), s6).device == Device6Tree(i, b, w)
    requires s6.thumbs == b.thumbs - NamesOf(i.hst, Row7(i)) - NamesOf(i.hst, Row6(i))
    ensures ThumbSeen(CtxFor(i, b, w), {}, s6, n)
  {
    hide RunOK, WorldOK, ViewsOK, Row3, Row6, Row7, Device6Tree, Untouched, Gone6, Good, Reasons, Objects, NamesOf,
         ThumbNameOK, RemovedSet, JobRels, JobNames;
    var c, p := CtxFor(i, b, w), At(THUMBNAIL_FOLDER, n);
    RunParts(i, b, w);
    RemainingSub(i);
    NamesFact(i, w, Remaining(i), n);
    ThumbLeft(i, b, w, n);
    MirrorMember(c, Row7(i), s6, p);
    State6Shrinks(i, b, w, s7, s6);
    assert ThumbLive(s6, n);
    if n in s6.thumbs { DeviceNoThumbName(c, Row7(i), s6, p); }
  }

  lemma DeviceNoThumbName(c: Ctx, used: set<string>, s: PState, p: string)
    requires CtxOK(c) && Objects(c, used, s) && s.next == c.i.next && p in s.dst
    ensures s.dst[p].thumb == "" && p in c.i.dst && s.dst[p] == c.i.dst[p] && s.dst[p].path == p
    ensures s.dst[p].id < c.i.next
  {
    hide WorldOK;
    AllOriginal(c, used, s, p);
    assert DeviceObjectAt(c.i.cfg, c.i.dst, c.w0.device, p);
  }

  lemma BaseStart(i: Inputs, b: Subsets, w: World)
    ensures BaseOK(CtxFor(i, b, w), Device6Tree(i, b, w))
  {
    hide ThumbPaths, Gone6, NamesOf, Row7, Row6, JobRels, JobNames, RemovedSet;
    forall p ensures BaseAt(CtxFor(i, b, w), Device6Tree(i, b, w), p) {}
  }

  lemma Start3(i: Inputs, b: Subsets, w: World, s7: PState, s6: PState)
    requires RunOK(i, b, w) && Ready7(i, b, w, s7) && Ready6(i, b, w, s7, s6)
    ensures Copied3(CtxFor(i, b, w), Row7(i), i.ThumbsAvailable(), s6.src, Device6Tree(i, b, w), {}, s6)
  {
    hide RunOK, Ready7, Inv, Untouched, Device6Tree, Row7, Row6, ThumbsSeen, DirsAreDirs, BaseOK, DeviceForm,
         RemovedSet, CtxFor;
    var c := CtxFor(i, b, w);
    var dev6 := Device6Tree(i, b, w);
    ThumbsSeenStart(i, b, w, s7, s6);
    Now6Is(i, b, w, s7, s6);
    State6Shrinks(i, b, w, s7, s6);
    assert c.i == i by { CtxInputs(i, b, w); }
    DirsStart(c, Row7(i), s6);
    BaseStart(i, b, w);
    FormStart(c, dev6);
    NothingDone(i, s6.src);
  }

  lemma NothingDone(i: Inputs, src: OIS)
    ensures JobRels(src, i.cfg.source, {}) == {} && JobNames(i, i.ThumbsAvailable(), src, {}) == {}
  {
    assert RemovedSet(src, i.cfg.source, {}) == {};
  }

  // ---------------------------------------------------------------------------------- the books that are copied

  /** The local mirror after the removals, seen as a set of files. */
  ghost predicate FilesLeft(i: Inputs, src: OIS) {
    && (forall p :: p in src ==> p in i.src && src[p] == i.src[p])
    && (forall p :: LeftAt(i, src, p))
  }

  ghost predicate LeftAt(i: Inputs, src: OIS, p: string) {
    p in i.src && !i.src[p].dir ==> (p in src <==> p in Remaining(i))
  }

  lemma State7Local(i: Inputs, b: Subsets, w: World, s7: PState)
    requires Ready7(i, b, w, s7)
    ensures LocalInv(i.src, i.cfg.source, RemovedSet(i.src, i.cfg.source, Row7(i)), s7.src)
  {
    hide Inv, Untouched, ThumbsLive, Row7, RemovedSet, JobRels, JobNames, LocalInv;
  }

  lemma FilesLeft7(i: Inputs, b: Subsets, w: World, s7: PState)
    requires Ready7(i, b, w, s7)
    ensures FilesLeft(i, s7.src)
  {
    hide Ready7, Row7, RemovedSet, JobRels, JobNames;
    State7Local(i, b, w, s7);
    forall p ensures LeftAt(i, s7.src, p) {
      assert FileKept(i.src, RemovedSet(i.src, i.cfg.source, Row7(i)), s7.src, p);
    }
  }

  lemma KeptBook(i: Inputs, w: World, k: string)
    requires WorldOK(i.cfg, w) && ViewsOK(i, w) && k in LocalBooks(i) && k !in Row7(i)
    ensures At(i.cfg.source, k) in Remaining(i)
  {
    hide BookKey, LocalBooks, RelClean, Compatible, LocalTree, DeviceTree, SupplementsAreFiles, ThumbNamesOK, VictimOf;
    RootFacts(i, w);
    LocalBookFacts(i, w, k);
    forall j | j in Row7(i) ensures BookKey(j) {
      Row7NotDevice(i, j);
      LocalBookFacts(i, w, j);
    }
    BookNotVictim(i.src, i.cfg.source, Row7(i), k);
  }

  lemma Row3Local(i: Inputs, k: string)
    requires k in Row3(i)
    ensures k in LocalBooks(i) && k !in Row7(i)
  {
    hide LocalBooks, Row7, HistoryBooks, DeviceBooksAt;
  }

  lemma Row3Entry(i: Inputs, b: Subsets, w: World, src: OIS, k: string)
    requires RunOK(i, b, w) && FilesLeft(i, src) && k in Row3(i)
    ensures BookKey(k) && At(i.cfg.source, k) in src
    ensures src[At(i.cfg.source, k)] == LocalBooks(i)[k] && src[At(i.cfg.source, k)].path == At(i.cfg.source, k)
    ensures k in LocalBooks(i)
  {
    hide RunOK, WorldOK, ViewsOK, BookKey, LocalBooks, Row3, Row7, Remaining;
    RunParts(i, b, w);
    Row3Local(i, k);
    LocalBookFacts(i, w, k);
    KeptBook(i, w, k);
    assert LeftAt(i, src, At(i.cfg.source, k));
  }

  lemma Row3Job(i: Inputs, b: Subsets, w: World, src: OIS, k: string, p: string)
    requires RunOK(i, b, w) && FilesLeft(i, src) && k in Row3(i)
    ensures JobOK(CtxFor(i, b, w), src, k, p)
  {
    hide RunOK, WorldOK, ViewsOK, LocalBooks, Row3, Row7, VictimOf, Below, JobNames;
    if p in src && VictimOf(i.cfg.source, k, p) {
      RunParts(i, b, w);
      Row3Local(i, k);
      LocalVictim(i, w, k, p);
      assert LeftAt(i, src, p);
      assert p in RemovedSet(Remaining(i), i.cfg.source, Row3(i));
      BelowNotEmpty(p, i.cfg.source);
    }
  }

  lemma Row3Name(i: Inputs, b: Subsets, w: World, src: OIS, k: string)
    requires FilesLeft(i, src) && k in Row3(i) && At(i.cfg.source, k) in src && At(i.cfg.source, k) in Remaining(i)
    ensures var t := ThumbJob(i, i.ThumbsAvailable(), src, k); t.Some? ==> t.value in CtxFor(i, b, w).names
  {
    hide JobRels, ThumbJob, Remaining, RemovedSet, Row3, Row7, FilesLeft, ThumbPaths;
    RemainingFiles(i);
    ThumbJobSame(i, src, k);
    ThumbJobSame(i, Remaining(i), k);
  }

  lemma Row3Book(i: Inputs, b: Subsets, w: World, src: OIS, k: string)
    requires RunOK(i, b, w) && FilesLeft(i, src) && k in Row3(i)
    ensures Case3At(CtxFor(i, b, w), i.ThumbsAvailable(), src, k)
    ensures At(i.cfg.source, k) in src && src[At(i.cfg.source, k)] == LocalBooks(i)[k]
    ensures src[At(i.cfg.source, k)].path == At(i.cfg.source, k)
  {
    hide RunOK, BookKey, LocalBooks, Row3, Row7, FilesLeft, JobOK, ThumbJob, JobRels, JobNames, RemovedSet,
         ThumbPaths, WorldOK, ViewsOK;
    var c := CtxFor(i, b, w);
    Row3Entry(i, b, w, src, k);
    RemainingFiles(i);
    Row3Entry(i, b, w, Remaining(i), k);
    Row3Name(i, b, w, src, k);
    forall p ensures JobOK(c, src, k, p) { Row3Job(i, b, w, src, k, p); }
  }

  lemma BelowNotEmpty(p: string, d: string)
    requires Below(p, d)
    ensures p != ""
  {
  }

  lemma ThumbJobSame(i: Inputs, src: OIS, k: string)
    requires FilesLeft(i, src) && At(i.cfg.source, k) in src
    ensures ThumbJob(i, i.ThumbsAvailable(), src, k) == ThumbJob(i, i.ThumbsAvailable(), i.src, k)
  {
  }

  /** The jobs depend on the files that are left only. */
  lemma JobsSame(i: Inputs, b: Subsets, w: World, src: OIS)
    requires RunOK(i, b, w) && FilesLeft(i, src)
    ensures JobRels(src, i.cfg.source, Row3(i)) == CtxFor(i, b, w).rels
    ensures JobNames(i, i.ThumbsAvailable(), src, Row3(i)) == CtxFor(i, b, w).names
  {
    RelsSame(i, b, w, src);
    NamesSame(i, b, w, src);
  }

  lemma RelsSame(i: Inputs, b: Subsets, w: World, src: OIS)
    requires RunOK(i, b, w) && FilesLeft(i, src)
    ensures JobRels(src, i.cfg.source, Row3(i)) == JobRels(Remaining(i), i.cfg.source, Row3(i))
  {
    hide WorldOK, ViewsOK, IsSubsets, Row3, Row7, VictimOf, LocalBooks;
    RunParts(i, b, w);
    RemainingSub(i);
    var rem, root := Remaining(i), i.cfg.source;
    forall p ensures p in RemovedSet(src, root, Row3(i)) <==> p in RemovedSet(rem, root, Row3(i)) {
      if k :| k in Row3(i) && VictimOf(root, k, p) {
        Row3Local(i, k);
        if p in i.src {
          LocalVictim(i, w, k, p);
          assert LeftAt(i, src, p);
        }
      }
    }
    assert RemovedSet(src, root, Row3(i)) == RemovedSet(rem, root, Row3(i));
    assert forall p :: p in RemovedSet(src, root, Row3(i)) ==> p in src && p in rem;
  }

  lemma NamesSame(i: Inputs, b: Subsets, w: World, src: OIS)
    requires RunOK(i, b, w) && FilesLeft(i, src)
    ensures JobNames(i, i.ThumbsAvailable(), src, Row3(i)) == JobNames(i, i.ThumbsAvailable(), Remaining(i), Row3(i))
  {
    hide RunOK, Row3, Row7, LocalBooks, ThumbJob, Case3At, FilesLeft, RemovedSet;
    assert FilesLeft(i, Remaining(i)) by { RemainingFiles(i); }
    forall k | k in Row3(i)
      ensures ThumbJob(i, i.ThumbsAvailable(), src, k) == ThumbJob(i, i.ThumbsAvailable(), Remaining(i), k)
    {
      Row3Book(i, b, w, src, k);
      Row3Book(i, b, w, Remaining(i), k);
      ThumbJobSame(i, src, k);
      ThumbJobSame(i, Remaining(i), k);
    }
  }

  lemma RemainingFiles(i: Inputs)
    ensures FilesLeft(i, Remaining(i))
  {
    hide RemovedSet, Row7;
    forall p ensures LeftAt(i, Remaining(i), p) {}
  }

  // ---------------------------------------------------------------------------------- the end of the plan

  /** What holds of the planner's final state, whatever the order of the loops. */
  ghost predicate Ended(i: Inputs, b: Subsets, w: World, s: PState) {
    var c := CtxFor(i, b, w);
    && State3(c, Row7(i), s.src, Device6Tree(i, b, w), c.rels, c.names, s)
    && LocalInv(i.src, i.cfg.source, RemovedSet(i.src, i.cfg.source, Row7(i)), s.src)
  }

  /** What the copy loop needs to know of the books it copies. */
  ghost predicate Loop3Ready(i: Inputs, b: Subsets, w: World, src: OIS, objs: OIS, order: seq<string>) {
    && NoRepeat(order) && Keys(order) == Row3(i)
    && (forall k :: k in order ==> k in objs && At(i.cfg.source, k) in src && objs[k] == src[At(i.cfg.source, k)])
    && (forall k :: k in order ==> objs[k].path == At(i.cfg.source, k))
    && Case3OK(CtxFor(i, b, w), i.ThumbsAvailable(), src, Keys(order))
  }

  lemma Objs3Ready(i: Inputs, b: Subsets, o: Orders, w: World, s7: PState, s6: PState)
    requires RunOK(i, b, w) && Ready7(i, b, w, s7) && Ready6(i, b, w, s7, s6) && IsOrder(o.o3, Objs3(i, b, s7, s6).Keys)
    ensures Loop3Ready(i, b, w, s6.src, Objs3(i, b, s7, s6), o.o3) && FilesLeft(i, s6.src)
  {
    hide RunOK, Ready7, Ready6, Objs3, Row3, Row7, Case3At, FilesLeft, LocalBooks, RemovedSet, JobRels, JobNames,
         ThumbPaths, CtxFor, At;
    State6Shrinks(i, b, w, s7, s6);
    assert s7.dst.Keys <= i.dst.Keys by { Ready7Keys(i, b, w, s7); }
    FilesLeft7(i, b, w, s7);
    forall k ensures k in Objs3(i, b, s7, s6) <==> k in Row3(i) { Objs3Member(i, b, w, s7, s6, k); }
    assert Keys(o.o3) == Row3(i);
    forall k | k in Row3(i)
      ensures Case3At(CtxFor(i, b, w), i.ThumbsAvailable(), s6.src, k)
      ensures k in Objs3(i, b, s7, s6) && At(i.cfg.source, k) in s6.src
                && Objs3(i, b, s7, s6)[k] == s6.src[At(i.cfg.source, k)]
              && Objs3(i, b, s7, s6)[k].path == At(i.cfg.source, k)
    {
      Row3Book(i, b, w, s6.src, k);
      Objs3Member(i, b, w, s7, s6, k);
    }
  }

  lemma Loop3Is(i: Inputs, b: Subsets, o: Orders, w: World, s7: PState, s6: PState)
    requires RunOK(i, b, w) && Ready7(i, b, w, s7) && Ready6(i, b, w, s7, s6) && IsOrder(o.o3, Objs3(i, b, s7, s6).Keys)
    ensures Copied3(CtxFor(i, b, w), Row7(i), i.ThumbsAvailable(), s6.src, Device6Tree(i, b, w), Row3(i),
                    Loop3(i.cfg, i.ThumbsAvailable(), i.email, i.pics, s6, Objs3(i, b, s7, s6), o.o3))
    ensures FilesLeft(i, s6.src)
  {
    hide RunOK, Ready7, Ready6, Copied3, Objs3, Row3, Row7, Case3At, Device6Tree, FilesLeft, JobRels, JobNames,
         RemovedSet, At, ThumbPaths;
    DeviceMode(i, b, w);
    TargetRoot(i, b, w);
    Start3(i, b, w, s7, s6);
    Objs3Ready(i, b, o, w, s7, s6);
    Loop3State(CtxFor(i, b, w), Row7(i), i.ThumbsAvailable(), Device6Tree(i, b, w), s6, Objs3(i, b, s7, s6), o.o3);
  }

  lemma CopiedEnds(i: Inputs, b: Subsets, w: World, src: OIS, s: PState)
    requires RunOK(i, b, w) && FilesLeft(i, src)
    requires LocalInv(i.src, i.cfg.source, RemovedSet(i.src, i.cfg.source, Row7(i)), src)
    requires Copied3(CtxFor(i, b, w), Row7(i), i.ThumbsAvailable(), src, Device6Tree(i, b, w), Row3(i), s)
    ensures Ended(i, b, w, s) && s.src == src
  {
    hide RunOK, State3, LocalInv, RemovedSet, Row3, Row7, Device6Tree, JobRels, JobNames, FilesLeft, ThumbPaths;
    JobsSame(i, b, w, src);
    State3Src(CtxFor(i, b, w), Row7(i), src, Device6Tree(i, b, w), CtxFor(i, b, w).rels, CtxFor(i, b, w).names, s);
  }

  lemma FinalEnds(i: Inputs, b: Subsets, o: Orders, w: World)
    requires RunOK(i, b, w) && IsOrders(i, b, o)
    ensures Ended(i, b, w, FinalState(i, b, o))
  {
    hide RunOK, Ended, Ready7, Ready6, Copied3, Objs3, Row3, Row7, FilesLeft, IsOrder, Active7, Active6, After7,
         After6, LocalInv, RemovedSet, ThumbPaths;
    var s7 := After7(i, b, o);
    var s6 := After6(i, b, o, s7);
    After6Is(i, b, o, w);
    Loop3Is(i, b, o, w, s7, s6);
    State6Shrinks(i, b, w, s7, s6);
    State7Local(i, b, w, s7);
    CopiedEnds(i, b, w, s6.src, FinalState(i, b, o));
  }

  lemma PlanEnds(i: Inputs, b: Subsets, s: PState, w: World)
    requires RunOK(i, b, w) && IsPlan(i, b, s)
    ensures Ended(i, b, w, s)
  {
    hide RunOK, IsPlan, IsOrders, FinalState, Ended;
    var o := PlanOrders(i, b, s);
    FinalEnds(i, b, o, w);
  }
}
