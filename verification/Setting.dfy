/** The three sets of books that the planner acts on, and the facts about a run that the hypotheses give. */
module Setting {
  import opened Paths
  import opened InfoSet
  import opened Plan
  import opened FileSystem
  import opened WellFormed
  import opened Removals

  // ---------------------------------------------------------------------------------- the decision table

  /** The L, H and D columns: the books of the source, the history and the target, by relative path. */
  ghost function LocalBooks(i: Inputs): OIS { Books(i.cfg, Descend(i.src, i.cfg.source)) }
  function HistoryBooks(i: Inputs): OIS { Books(i.cfg, i.hst) }
  ghost function DeviceBooksAt(i: Inputs): OIS { Books(i.cfg, Descend(i.dst, i.cfg.target)) }

  /** Row 7: removed from the device. */
  ghost function Row7(i: Inputs): set<string> {
    if i.ignoreRemovals then {} else (LocalBooks(i).Keys * HistoryBooks(i).Keys) - DeviceBooksAt(i).Keys
  }

  /** Row 6: removed locally. */
  ghost function Row6(i: Inputs): set<string> {
    (HistoryBooks(i).Keys * DeviceBooksAt(i).Keys) - LocalBooks(i).Keys
  }

  /** Row 3 and the changed books of row 8, with row 7 when removals on the device are ignored. */
  ghost function Row3(i: Inputs): set<string> {
    set k | k in LocalBooks(i) && k !in Row7(i) &&
            (k !in DeviceBooksAt(i) || (k in HistoryBooks(i) && HistoryBooks(i)[k].pid != LocalBooks(i)[k].pid))
  }

  // ---------------------------------------------------------------------------------- the subsets

  /** The hypotheses of a run over a device. */
  ghost predicate RunOK(i: Inputs, b: Subsets, w: World) {
    WorldOK(i.cfg, w) && ViewsOK(i, w) && IsSubsets(i, b)
  }

  lemma RootFacts(i: Inputs, w: World)
    requires WorldOK(i.cfg, w)
    ensures RootPath(i.cfg.source) && i.cfg.source != "." && RootPath(i.cfg.target) && i.cfg.target != "."
    ensures i.cfg.target != ""
  {
    RelCleanEnds(i.cfg.target);
    DotNotClean();
  }

  lemma SourceSelected(i: Inputs, w: World)
    requires WorldOK(i.cfg, w) && ViewsOK(i, w)
    ensures NoRawSiblings(i.src, i.cfg.source)
  {
    var os, dir := i.src, i.cfg.source;
    forall k | SelectedIn(os, k, dir) ensures Below(k, dir) {
      assert LocalAt(i.cfg, w.local, k) && LocalObject(os, w.local, k) && LocalObject(os, w.local, dir);
    }
  }

  lemma LocalSubset(i: Inputs, b: Subsets, w: World)
    requires RunOK(i, b, w)
    ensures b.local == LocalBooks(i)
  {
    hide WorldOK, ViewsOK;
    RootFacts(i, w);
    SourceSelected(i, w);
    var os, dir := i.src, i.cfg.source;
    var sub :| IsSubsetByPath(os, dir, sub) && b.local == Books(i.cfg, sub);
    SubsetIsDescend(os, dir, sub);
  }

  /** Seen from a book of the history or of the source, the books under the target are the device books. */
  lemma DeviceSubset(i: Inputs, b: Subsets, w: World, k: string)
    requires RunOK(i, b, w) && i.TargetExists() && !NoBookAt(i, k)
    ensures k in b.device <==> k in DeviceBooksAt(i)
    ensures k in b.device ==> b.device[k] == DeviceBooksAt(i)[k]
  {
    hide WorldOK, LocalView, DeviceView, HistoryView, OwnObjects, NoRawKeys, IsSubsetByPath, Descend, Ext;
    RootFacts(i, w);
    assert BesideAt(i, k);
    var sub :| IsSubsetByPath(i.dst, i.cfg.target, sub) && b.device == Books(i.cfg, sub);
    SubsetAt(i.dst, i.cfg.target, sub, k);
  }

  /** Above every path of the device there are only directories of the device. */
  lemma {:induction false} DeviceAbove(t: Tree, p: string, d: string)
    requires DeviceTree(t) && p in t && Below(p, d) && d != ""
    ensures d in t && t[d].Directory?
    decreases |p|
  {
    assert DeviceAt(t, p);
    DirOfBelow(p, d);
    RelCleanDir(p);
    if Dir(p) != d {
      DeviceAbove(t, Dir(p), d);
    }
  }

  lemma MissingTarget(i: Inputs, b: Subsets, w: World)
    requires RunOK(i, b, w) && !i.TargetExists()
    ensures DeviceBooksAt(i) == map[] && i.cfg.target !in w.device
  {
    hide Compatible, LocalTree, SupplementsAreFiles, CrossIndexes, ThumbNamesOK, PicsOK, IsSubsets, LocalView,
         HistoryView, OwnObjects, NoRawKeys;
    RootFacts(i, w);
    assert DeviceObjectAt(i.cfg, i.dst, w.device, i.cfg.target);
    if n :| n in Descend(i.dst, i.cfg.target) {
      DeviceAbove(w.device, At(i.cfg.target, n), i.cfg.target);
    }
  }

  // ---------------------------------------------------------------------------------- the books

  lemma LocalBookFacts(i: Inputs, w: World, k: string)
    requires WorldOK(i.cfg, w) && ViewsOK(i, w) && k in LocalBooks(i)
    ensures var p := At(i.cfg.source, k);
            && p in i.src && LocalBooks(i)[k] == i.src[p] && !i.src[p].dir && i.src[p].path == p
               && BookAt(i.cfg, w.local, p)
            && p in w.local && w.local[p].File? && i.src[p].pid == w.local[p].content
               && i.src[p].thumb == w.local[p].thumb
    ensures BookKey(k)
  {
    var p := At(i.cfg.source, k);
    assert LocalAt(i.cfg, w.local, p) && LocalObject(i.src, w.local, p);
    DirAt(i.cfg.source, k);
  }

  lemma DeviceBookFacts(i: Inputs, w: World, k: string)
    requires WorldOK(i.cfg, w) && ViewsOK(i, w) && k in DeviceBooksAt(i) && k in i.hst
    ensures var p := At(i.cfg.target, k);
            && p in i.dst && DeviceBooksAt(i)[k] == i.dst[p] && !i.dst[p].dir && i.dst[p].path == p
               && BookAt(i.cfg, w.device, p)
            && p in w.device && w.device[p].File?
    ensures BookKey(k)
  {
    var p := At(i.cfg.target, k);
    RootFacts(i, w);
    assert DeviceObjectAt(i.cfg, i.dst, w.device, p) && HistoryAt(i.cfg, i.hst, k);
    DirAt(i.cfg.target, k);
  }

  // ---------------------------------------------------------------------------------- thumbnails

  lemma ThumbSubset(i: Inputs, b: Subsets, w: World)
    requires RunOK(i, b, w) && i.ThumbsAvailable()
    ensures b.thumbs == ThumbFilter(i.cfg, Descend(i.dst, THUMBNAIL_FOLDER))
  {
    var sub :| IsSubsetByPath(i.dst, THUMBNAIL_FOLDER, sub) && b.thumbs == ThumbFilter(i.cfg, sub);
    SubsetIsDescend(i.dst, THUMBNAIL_FOLDER, sub);
  }

  lemma ThumbsStart(i: Inputs, b: Subsets, w: World)
    requires RunOK(i, b, w)
    ensures ThumbsLive(i.Start(b.thumbs)) && (i.ThumbsAvailable() || b.thumbs == map[])
  {
    var s := i.Start(b.thumbs);
    if i.ThumbsAvailable() { ThumbSubset(i, b, w); }
    forall n ensures ThumbLive(s, n) {
      if n in b.thumbs {
        var p := At(THUMBNAIL_FOLDER, n);
        assert DeviceObjectAt(i.cfg, i.dst, w.device, p) && DeviceAt(w.device, p);
        RelCleanEnds(p);
      }
    }
  }

  /** A plain thumbnail name of a local book is recognised exactly when the file is on the device. */
  lemma ThumbKnown(i: Inputs, b: Subsets, w: World, n: string)
    requires RunOK(i, b, w) && i.ThumbsAvailable() && ThumbNameOK(i.cfg, w.device, n)
    ensures n in b.thumbs <==> At(THUMBNAIL_FOLDER, n) in i.dst
  {
    ThumbSubset(i, b, w);
    var p, sub := At(THUMBNAIL_FOLDER, n), Descend(i.dst, THUMBNAIL_FOLDER);
    if p in i.dst {
      assert DeviceObjectAt(i.cfg, i.dst, w.device, p);
      LastSlashOfAt(THUMBNAIL_FOLDER, n);
      assert Base(p) == n;
      forall d | d in sub && sub[d].dir ensures !(d <= n) {
        var q := At(THUMBNAIL_FOLDER, d);
        assert DeviceObjectAt(i.cfg, i.dst, w.device, q) && NotHiding(w.device, n, q);
      }
      assert Ext(n) == Ext(i.dst[p].name);
    }
  }

  // ---------------------------------------------------------------------------------- the planner gets its subsets

  lemma DeviceRoots(i: Inputs, w: World)
    requires WorldOK(i.cfg, w) && ViewsOK(i, w)
    ensures NoRawSiblings(i.dst, THUMBNAIL_FOLDER) && !i.email
  {
    RootFacts(i, w);
  }

  /** Whatever is read, there are subsets for the planner to work on. */
  lemma SomeSubsets(i: Inputs, w: World) returns (b: Subsets)
    requires WorldOK(i.cfg, w) && ViewsOK(i, w)
    ensures RunOK(i, b, w)
  {
    hide WorldOK, ViewsOK, Descend, Books, ThumbFilter, RootPath;
    RootFacts(i, w);
    SourceSelected(i, w);
    DeviceRoots(i, w);
    var thumbs := Descend(i.dst, THUMBNAIL_FOLDER);
    var sub := AnySubset(i.dst, i.cfg.target);
    b := Subsets(LocalBooks(i), HistoryBooks(i), Books(i.cfg, sub),
                 if i.ThumbsAvailable() then ThumbFilter(i.cfg, thumbs) else map[]);
    DescendIsSubset(i.src, i.cfg.source);
    assert RootPath(THUMBNAIL_FOLDER) by { ThumbRoot(); }
    DescendIsSubset(i.dst, THUMBNAIL_FOLDER);
    assert IsBooksOf(i.cfg, i.src, i.cfg.source, b.local) && IsBooksOf(i.cfg, i.dst, i.cfg.target, b.device);
    assert IsThumbsOf(i.cfg, i.dst, ThumbFilter(i.cfg, thumbs));
  }

  lemma ThumbRoot()
    ensures RootPath(THUMBNAIL_FOLDER)
  {
    assert THUMBNAIL_FOLDER[|THUMBNAIL_FOLDER| - 1] == 's';
  }
}
