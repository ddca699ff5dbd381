/** The hypotheses under which the plan does what it predicts: what the drivers enumerate, and the shapes of the
    local tree, the device and the history that the planner relies on without checking. */
module WellFormed {
  import opened Paths
  import opened InfoSet
  import opened Plan
  import opened FileSystem

  predicate InScope(cfg: Config, p: string) {
    AtOrBelow(p, cfg.target) || AtOrBelow(p, THUMBNAIL_FOLDER)
  }

  /** The configuration: clean roots, target and thumbnail folder apart, page indexes not counted as books. */
  predicate ConfigOK(cfg: Config) {
    && RootPath(cfg.source) && cfg.source != "."
    && RelClean(cfg.target)
    && !AtOrBelow(THUMBNAIL_FOLDER, cfg.target) && !(THUMBNAIL_FOLDER <= cfg.target)
    && ".apnx" !in cfg.bookExts
  }

  ghost predicate HasParent(t: Tree, p: string) {
    Dir(p) in t && t[Dir(p)].Directory?
  }

  // Each condition on all paths is a predicate on one path, so that a proof names the paths it looks at.

  ghost predicate LocalAt(cfg: Config, t: Tree, p: string) {
    p in t && p != cfg.source ==> Below(p, cfg.source) && RelClean(Rel(p, cfg.source)) && HasParent(t, p)
  }

  /** The local tree: the source directory and clean paths below it, closed under parents. */
  ghost predicate LocalTree(cfg: Config, t: Tree) {
    && cfg.source in t && t[cfg.source].Directory?
    && forall p :: LocalAt(cfg, t, p)
  }

  ghost predicate DeviceAt(t: Tree, p: string) {
    p in t ==> RelClean(p) && (Dir(p) == "." || HasParent(t, p))
  }

  /** The device: clean relative paths closed under parents. */
  ghost predicate DeviceTree(t: Tree) {
    forall p :: DeviceAt(t, p)
  }

  ghost predicate SameKind(l: Tree, p: string, d: Tree, q: string) {
    p in l && q in d ==> (l[p].Directory? <==> d[q].Directory?)
  }

  /** No clash of a file with a directory when the local tree is re-rooted under the target. */
  ghost predicate Compatible(cfg: Config, l: Tree, d: Tree) {
    && (cfg.target in d ==> d[cfg.target].Directory?)
    && (THUMBNAIL_FOLDER in d ==> d[THUMBNAIL_FOLDER].Directory?)
    && forall r :: SameKind(l, At(cfg.source, r), d, At(cfg.target, r))
  }

  /** The directory that holds the target exists; the planner never creates it. */
  ghost predicate TargetParent(cfg: Config, d: Tree) {
    Dir(cfg.target) == "." || HasParent(d, cfg.target)
  }

  ghost predicate BookAt(cfg: Config, t: Tree, p: string) {
    p in t && t[p].File? && Ext(Base(p)) in cfg.bookExts
  }

  ghost predicate SupplementAt(cfg: Config, t: Tree, root: string, p: string, q: string) {
    BookAt(cfg, t, p) && Below(p, root) && q in Supplements(p) && q in t ==> t[q].File?
  }

  /** The page-index paths of the books below `root` name files wherever they exist. */
  ghost predicate SupplementsAreFiles(cfg: Config, t: Tree, root: string) {
    forall p, q :: SupplementAt(cfg, t, root, p, q)
  }

  ghost predicate CrossAt(cfg: Config, l: Tree, d: Tree, k: string, q: string) {
    && (BookAt(cfg, l, At(cfg.source, k)) && q in Supplements(At(cfg.target, k)) && q in d ==> d[q].File?)
    && (BookAt(cfg, d, At(cfg.target, k)) && q in Supplements(At(cfg.source, k)) && q in l ==> l[q].File?)
  }

  /** The page-index paths of a book name files on the other side too. */
  ghost predicate CrossIndexes(cfg: Config, l: Tree, d: Tree) {
    forall k, q :: CrossAt(cfg, l, d, k, q)
  }

  ghost predicate NotHiding(d: Tree, n: string, q: string) {
    q in d && d[q].Directory? && Below(q, THUMBNAIL_FOLDER) ==> !(Rel(q, THUMBNAIL_FOLDER) <= n)
  }

  ghost predicate ThumbNameOK(cfg: Config, d: Tree, n: string) {
    && CleanPart(n) && Ext(n) in cfg.thumbExts
    && (At(THUMBNAIL_FOLDER, n) in d ==> d[At(THUMBNAIL_FOLDER, n)].File?)
    && forall q :: NotHiding(d, n, q)
  }

  ghost predicate ThumbAt(cfg: Config, l: Tree, d: Tree, p: string) {
    p in l && l[p].File? && l[p].thumb != "" ==> ThumbNameOK(cfg, d, l[p].thumb)
  }

  /** Thumbnail names extracted from local books are plain file names with a recognised extension, no directory of
      that name is in the way, and no subdirectory of the thumbnail folder hides the file from the planner. */
  ghost predicate ThumbNamesOK(cfg: Config, l: Tree, d: Tree) {
    forall p :: ThumbAt(cfg, l, d, p)
  }

  ghost predicate PicAt(cfg: Config, pics: Tree, p: string) {
    p in pics ==> pics[p].File? && !AtOrBelow(p, cfg.source)
  }

  /** The extracted thumbnail files are files outside the source. */
  ghost predicate PicsOK(cfg: Config, pics: Tree) {
    forall p :: PicAt(cfg, pics, p)
  }

  ghost predicate WorldOK(cfg: Config, w: World) {
    && ConfigOK(cfg)
    && LocalTree(cfg, w.local) && DeviceTree(w.device)
    && Compatible(cfg, w.local, w.device) && TargetParent(cfg, w.device)
    && SupplementsAreFiles(cfg, w.local, cfg.source) && SupplementsAreFiles(cfg, w.device, cfg.target)
    && CrossIndexes(cfg, w.local, w.device)
    && ThumbNamesOK(cfg, w.local, w.device) && PicsOK(cfg, w.pics)
  }

  // ---------------------------------------------------------------------------------- what the drivers enumerate

  predicate Describes(o: Obj, p: string, n: Node) {
    && o.path == p && o.name == Base(p) && (o.dir <==> n.Directory?)
  }

  ghost predicate LocalObject(os: OIS, t: Tree, p: string) {
    p in os && p in t ==>
        Describes(os[p], p, t[p]) && (t[p].File? ==> os[p].pid == t[p].content && os[p].thumb == t[p].thumb)
  }

  /** files/device.go over the source: every object, with content hash and thumbnail name. */
  ghost predicate LocalView(os: OIS, t: Tree) {
    os.Keys == t.Keys && forall p :: LocalObject(os, t, p)
  }

  ghost predicate DeviceObjectAt(cfg: Config, os: OIS, t: Tree, p: string) {
    && (p in os && p in t ==> Describes(os[p], p, t[p]) && os[p].thumb == "")
    && (p in t && InScope(cfg, p) ==> p in os)
  }

  /** A device driver: everything at or below the target and the thumbnail folder, perhaps more; no thumbnail names. */
  ghost predicate DeviceView(cfg: Config, os: OIS, t: Tree) {
    os.Keys <= t.Keys && forall p :: DeviceObjectAt(cfg, os, t, p)
  }

  ghost predicate HistoryAt(cfg: Config, hst: OIS, k: string) {
    k in hst ==> RelClean(k) && hst[k].path == At(cfg.source, k) && hst[k].name == Base(k)
  }

  /** The history: relative keys, full paths under the same source. */
  ghost predicate HistoryView(cfg: Config, hst: OIS) {
    forall k :: HistoryAt(cfg, hst, k)
  }

  ghost predicate DistinctIds(os: OIS, next: nat) {
    && (forall p :: p in os ==> os[p].id < next)
    && (forall p, q :: p in os && q in os && os[p].id == os[q].id ==> p == q)
  }

  ghost predicate DisjointIds(a: OIS, b: OIS) {
    forall p, q :: p in a && q in b ==> a[p].id != b[q].id
  }

  /** The three enumerations allocate their own objects. */
  ghost predicate OwnObjects(i: Inputs) {
    && DistinctIds(i.src, i.next) && DistinctIds(i.dst, i.next) && DistinctIds(i.hst, i.next)
    && DisjointIds(i.src, i.dst) && DisjointIds(i.src, i.hst) && DisjointIds(i.hst, i.dst)
  }

  predicate BookEntry(cfg: Config, os: OIS, k: string) {
    k in os && IsBook(cfg, os[k])
  }

  /** No book of the history or of the source has this relative path. */
  predicate NoBookAt(i: Inputs, k: string) {
    !BookEntry(i.cfg, i.hst, k) && !BookEntry(i.cfg, i.src, At(i.cfg.source, k))
  }

  /** What is listed beside the target and starts with its text is read as if its whole path lay under the target. */
  ghost predicate BesideAt(i: Inputs, k: string) {
    SelectedIn(i.dst, k, i.cfg.target) && !Below(k, i.cfg.target) ==> NoBookAt(i, k)
  }

  /** No book has the path of such an entry, and nothing listed merely starts with the text of the thumbnail folder. */
  ghost predicate Apart(i: Inputs) {
    NoRawSiblings(i.dst, THUMBNAIL_FOLDER) && forall k :: BesideAt(i, k)
  }

  ghost predicate RawKeyAt(i: Inputs, k: string) {
    k in i.dst ==> NoBookAt(i, k)
  }

  /** When the target is missing, the planner takes the raw device keys for book keys; no path of a book may coincide
      with one that is listed. */
  ghost predicate NoRawKeys(i: Inputs) {
    i.cfg.target !in i.dst ==> forall k :: RawKeyAt(i, k)
  }

  ghost predicate ViewsOK(i: Inputs, w: World) {
    && LocalView(i.src, w.local) && DeviceView(i.cfg, i.dst, w.device) && HistoryView(i.cfg, i.hst)
    && OwnObjects(i) && Apart(i) && NoRawKeys(i)
    && i.pics == w.pics.Keys && !i.email && !w.mail
  }
}
