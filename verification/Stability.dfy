/** Wherever a run stops, the hypotheses of the next run hold again, and every path of the device is as it was or as
    the plan wants it. */
module Stability {
  import opened Paths
  import opened InfoSet
  import opened Plan
  import opened FileSystem
  import opened WellFormed
  import opened Invariant
  import opened LocalPhase
  import opened DeviceRemovals
  import opened Copies
  import opened Counting
  import opened Setting
  import opened Decisions
  import opened Outcomes
  import opened Table
  import opened Actions

  // ---------------------------------------------------------------------------------- the local tree

  ghost predicate LocalKept(c: Ctx, t: Tree, p: string) {
    && (p in t ==> p in c.w0.local && t[p] == c.w0.local[p])
    && (p in c.w0.local && c.w0.local[p].File? && p !in t ==> p in c.okSrc)
  }

  /** The local tree has only lost things: files with a reason, and directories. */
  ghost predicate LocalBetween(c: Ctx, t: Tree) {
    LocalTree(c.i.cfg, t) && forall p :: LocalKept(c, t, p)
  }

  /** Removing a file or an empty directory other than the source leaves a tree. */
  lemma LocalTreeRemove(cfg: Config, t: Tree, p: string)
    requires LocalTree(cfg, t) && CanRemove(t, p) && p != cfg.source && RootPath(cfg.source)
    ensures LocalTree(cfg, t - {p})
  {
    forall q ensures LocalAt(cfg, t - {p}, q) {
      assert LocalAt(cfg, t, q);
      if q in t && q != cfg.source { DirOfBelow(q, cfg.source); }
    }
  }

  lemma LocalStep(c: Ctx, w: World, a: Action, acts: seq<Action>, j: int)
    requires CtxOK(c) && LocalBetween(c, w.local) && 0 <= j < |acts| && acts[j] == a && ReasonAt(c, acts, j)
    requires CanStep(w, a) && !w.mail
    ensures LocalBetween(c, Step(w, a).local)
  {
    if a.actor.Src? {
      CtxConfig(c);
      LocalTreeRemove(c.i.cfg, w.local, a.obj.path);
      forall p ensures LocalKept(c, w.local - {a.obj.path}, p) { assert LocalKept(c, w.local, p); }
    }
  }

  // ---------------------------------------------------------------------------------- the device

  /** What the device keeps while a plan runs, measured against the local tree the run started from. */
  ghost predicate DeviceBetween(c: Ctx, d: Tree) {
    var cfg, l := c.i.cfg, c.w0.local;
    DeviceTree(d) && TargetParent(cfg, d) && Matched(cfg, l, d)
  }

  /** The new node at `p` is one the plan may create. */
  ghost predicate MayCreate(c: Ctx, p: string, n: Node) {
    || (n.Directory? && DirFor(c.i.cfg, c.rels, p))
    || (n.File? && exists from :: CopyFor(c.i.cfg, c.rels, p, from) && Lookup(c.w0.local, from) == Some(n))
    || (n.File? && exists from :: ThumbFor(c.i.cfg, c.names, p, from))
  }

  /** A directory the plan makes stands for a directory of the source. */
  lemma MadeDirLocal(c: Ctx, p: string)
    requires CtxOK(c) && DirFor(c.i.cfg, c.rels, p) && p != c.i.cfg.target
    ensures Below(p, c.i.cfg.target) && var q := At(c.i.cfg.source, Rel(p, c.i.cfg.target));
              q in c.w0.local && c.w0.local[q].Directory?
    ensures RelClean(Rel(p, c.i.cfg.target))
  {
    var cfg := c.i.cfg;
    var r :| r in c.rels && Below(At(cfg.target, r), p);
    var q := Rel(p, cfg.target);
    AtRel(p, cfg.target);
    RerootBelow(cfg.target, r, q);
    RerootBelow(cfg.source, r, q);
    SourceIsTree(c);
    assert RelAt(c, r);
    AboveIsDir(c.i.src, cfg.source, At(cfg.source, r), At(cfg.source, q));
    assert LocalObject(c.i.src, c.w0.local, At(cfg.source, q)) && LocalAt(cfg, c.w0.local, At(cfg.source, q));
  }

  lemma CreatedClean(c: Ctx, p: string, n: Node)
    requires CtxOK(c) && MayCreate(c, p, n)
    ensures RelClean(p) && InScope(c.i.cfg, p)
  {
    var cfg := c.i.cfg;
    if n.Directory? && DirFor(cfg, c.rels, p) {
      if p != cfg.target {
        MadeDirLocal(c, p);
        AtRel(p, cfg.target);
        RelCleanJoin(cfg.target, Rel(p, cfg.target));
      }
    } else if from :| CopyFor(cfg, c.rels, p, from) {
      assert RelAt(c, Rel(p, cfg.target));
      AtRel(p, cfg.target);
      RelCleanJoin(cfg.target, Rel(p, cfg.target));
    } else {
      ThumbClean(c, p);
    }
  }

  lemma ThumbClean(c: Ctx, p: string)
    requires CtxOK(c) && exists from :: ThumbFor(c.i.cfg, c.names, p, from)
    ensures RelClean(p)
  {
    hide WorldOK, ViewsOK, Split;
    var n := Rel(p, THUMBNAIL_FOLDER);
    assert NameAt(c, n);
    AtRel(p, THUMBNAIL_FOLDER);
    ThumbFolderClean();
    RelCleanAt(THUMBNAIL_FOLDER, n);
  }

  lemma ThumbFolderClean()
    ensures RelClean(THUMBNAIL_FOLDER)
  {
    hide RelClean;
    var s, t := "system", "thumbnails";
    OneClean(s);
    OneClean(t);
    assert THUMBNAIL_FOLDER == At(s, t);
    RelCleanJoin(s, t);
  }

  lemma DeviceTreeCreate(d: Tree, p: string, n: Node)
    requires DeviceTree(d) && Free(d, p) && RelClean(p)
    ensures DeviceTree(d[p := n])
  {
    var e := d[p := n];
    forall q ensures DeviceAt(e, q) { assert DeviceAt(d, q); }
  }

  lemma DeviceTreeRemove(d: Tree, p: string)
    requires DeviceTree(d) && CanRemove(d, p)
    ensures DeviceTree(d - {p})
  {
    var e := d - {p};
    forall q ensures DeviceAt(e, q) {
      assert DeviceAt(d, q);
      if q in d { RelCleanDir(q); }
    }
  }

  // ---------------------------------------------------------------------------------- less is still fine

  predicate PartAt(e: Tree, d: Tree, p: string) {
    p in e ==> p in d && e[p] == d[p]
  }

  /** `e` is what is left of `d`. */
  ghost predicate Part(e: Tree, d: Tree) {
    forall p :: PartAt(e, d, p)
  }

  /** The hypotheses that compare the two trees. */
  ghost predicate Matched(cfg: Config, l: Tree, d: Tree) {
    && Compatible(cfg, l, d)
    && SupplementsAreFiles(cfg, l, cfg.source) && SupplementsAreFiles(cfg, d, cfg.target)
    && CrossIndexes(cfg, l, d) && ThumbNamesOK(cfg, l, d)
  }

  lemma CompatiblePart(cfg: Config, l: Tree, k: Tree, d: Tree, e: Tree)
    requires Compatible(cfg, l, d) && Part(k, l) && Part(e, d)
    ensures Compatible(cfg, k, e)
  {
    assert PartAt(e, d, cfg.target) && PartAt(e, d, THUMBNAIL_FOLDER);
    forall r ensures SameKind(k, At(cfg.source, r), e, At(cfg.target, r)) {
      assert PartAt(k, l, At(cfg.source, r)) && PartAt(e, d, At(cfg.target, r))
          && SameKind(l, At(cfg.source, r), d, At(cfg.target, r));
    }
  }

  lemma SupplementsPart(cfg: Config, t: Tree, e: Tree, root: string)
    requires SupplementsAreFiles(cfg, t, root) && Part(e, t)
    ensures SupplementsAreFiles(cfg, e, root)
  {
    hide Supplements, Ext, Base;
    forall p, q ensures SupplementAt(cfg, e, root, p, q) {
      assert SupplementAt(cfg, t, root, p, q) && PartAt(e, t, p) && PartAt(e, t, q);
    }
  }

  lemma CrossPart(cfg: Config, l: Tree, k: Tree, d: Tree, e: Tree)
    requires CrossIndexes(cfg, l, d) && Part(k, l) && Part(e, d)
    ensures CrossIndexes(cfg, k, e)
  {
    hide Supplements, Ext, Base;
    forall r, q ensures CrossAt(cfg, k, e, r, q) {
      assert CrossAt(cfg, l, d, r, q);
      assert PartAt(k, l, At(cfg.source, r)) && PartAt(k, l, q) && PartAt(e, d, q) && PartAt(e, d, At(cfg.target, r));
    }
  }

  lemma ThumbNamePart(cfg: Config, d: Tree, e: Tree, n: string)
    requires ThumbNameOK(cfg, d, n) && Part(e, d)
    ensures ThumbNameOK(cfg, e, n)
  {
    assert PartAt(e, d, At(THUMBNAIL_FOLDER, n));
    forall q ensures NotHiding(e, n, q) { assert NotHiding(d, n, q) && PartAt(e, d, q); }
  }

  lemma ThumbNamesPart(cfg: Config, l: Tree, k: Tree, d: Tree, e: Tree)
    requires ThumbNamesOK(cfg, l, d) && Part(k, l) && Part(e, d)
    ensures ThumbNamesOK(cfg, k, e)
  {
    hide ThumbNameOK;
    forall p ensures ThumbAt(cfg, k, e, p) {
      assert ThumbAt(cfg, l, d, p) && PartAt(k, l, p);
      if p in k && k[p].File? && k[p].thumb != "" { ThumbNamePart(cfg, d, e, k[p].thumb); }
    }
  }

  /** Whatever is lost on either side, the trees still match. */
  lemma MatchedPart(cfg: Config, l: Tree, k: Tree, d: Tree, e: Tree)
    requires Matched(cfg, l, d) && Part(k, l) && Part(e, d)
    ensures Matched(cfg, k, e)
  {
    hide Part, Compatible, SupplementsAreFiles, CrossIndexes, ThumbNamesOK;
    CompatiblePart(cfg, l, k, d, e);
    SupplementsPart(cfg, l, k, cfg.source);
    SupplementsPart(cfg, d, e, cfg.target);
    CrossPart(cfg, l, k, d, e);
    ThumbNamesPart(cfg, l, k, d, e);
  }

  // ---------------------------------------------------------------------------------- what the plan adds is fine

  /** What the plan creates stands for something of the source, or is a file in the thumbnail folder. */
  ghost predicate Mirrors(c: Ctx, p: string, n: Node) {
    var cfg, l := c.i.cfg, c.w0.local;
    || (p == cfg.target && n.Directory?)
    || (Below(p, cfg.target) && RelClean(Rel(p, cfg.target)) && At(cfg.source, Rel(p, cfg.target)) in l
        && (l[At(cfg.source, Rel(p, cfg.target))].Directory? <==> n.Directory?))
    || (Below(p, THUMBNAIL_FOLDER) && Dir(p) == THUMBNAIL_FOLDER && n.File?)
  }

  lemma CreatedMirrors(c: Ctx, p: string, n: Node)
    requires CtxOK(c) && MayCreate(c, p, n)
    ensures Mirrors(c, p, n)
  {
    hide WorldOK, ViewsOK, RelClean, Dir;
    var cfg := c.i.cfg;
    if n.Directory? {
      if p != cfg.target { MadeDirLocal(c, p); }
    } else if exists from :: CopyFor(cfg, c.rels, p, from) && Lookup(c.w0.local, from) == Some(n) {
      assert RelAt(c, Rel(p, cfg.target));
    } else {
      var r := Rel(p, THUMBNAIL_FOLDER);
      assert NameAt(c, r);
      AtRel(p, THUMBNAIL_FOLDER);
      DirOfAt(THUMBNAIL_FOLDER, r);
    }
  }

  lemma DirOfAt(d: string, c: string)
    requires CleanPart(c) && RootPath(d)
    ensures Dir(At(d, c)) == d
  {
    LastSlashOfAt(d, c);
  }

  /** A node is put at a free path of the device for a reason. */
  ghost predicate Adding(c: Ctx, d: Tree, p: string, n: Node) {
    && ConfigOK(c.i.cfg) && Matched(c.i.cfg, c.w0.local, d) && Mirrors(c, p, n) && p !in d && RelClean(p)
    && (Below(p, THUMBNAIL_FOLDER) ==> THUMBNAIL_FOLDER in d)
    && LocalTree(c.i.cfg, c.w0.local) && DeviceTree(d) && RootPath(c.i.cfg.target)
  }

  lemma CompatibleAdd(c: Ctx, d: Tree, p: string, n: Node)
    requires Adding(c, d, p, n)
    ensures Compatible(c.i.cfg, c.w0.local, d[p := n])
  {
    hide SupplementsAreFiles, CrossIndexes, ThumbNamesOK, RelClean, LocalTree, DeviceTree, Dir;
    var cfg, l, e := c.i.cfg, c.w0.local, d[p := n];
    if AtOrBelow(p, cfg.target) { ScopesApart(cfg, p); }
    ScopesApart(cfg, cfg.target);
    forall r ensures SameKind(l, At(cfg.source, r), e, At(cfg.target, r)) {
      assert SameKind(l, At(cfg.source, r), d, At(cfg.target, r));
      if At(cfg.target, r) == p { ScopesApart(cfg, p); }
    }
  }

  lemma ThumbNamesAdd(c: Ctx, d: Tree, p: string, n: Node)
    requires Adding(c, d, p, n)
    ensures ThumbNamesOK(c.i.cfg, c.w0.local, d[p := n])
  {
    hide Compatible, SupplementsAreFiles, CrossIndexes, RelClean, LocalTree, DeviceTree, Dir, Ext, CleanPart;
    var cfg, l, e := c.i.cfg, c.w0.local, d[p := n];
    if AtOrBelow(p, cfg.target) { ScopesApart(cfg, p); }
    forall q ensures ThumbAt(cfg, l, e, q) {
      assert ThumbAt(cfg, l, d, q);
      if q in l && l[q].File? && l[q].thumb != "" {
        var m := l[q].thumb;
        forall r ensures NotHiding(e, m, r) { assert NotHiding(d, m, r); }
      }
    }
  }

  // ---------------------------------------------------------------------------------- page indexes

  lemma OtherOf(s: seq<string>, t: seq<string>, u: seq<string>, q: string, from: string, to: string) returns (r: string)
    requires Rerooted(from, s, u) && Rerooted(to, t, u) && q in s
    ensures q == At(from, r) && At(to, r) in t
  {
    hide At, Ext, Base;
    r := if q == s[0] then u[0] else u[1];
    assert t[0] in t && t[1] in t;
  }

  /** A page index of the book `k` on one side, and where it would be on the other. */
  lemma OtherSide(k: string, q: string, from: string, to: string) returns (r: string)
    requires RootPath(from) && RootPath(to) && RelClean(k) && q in Supplements(At(from, k))
    ensures q == At(from, r) && At(to, r) in Supplements(At(to, k))
  {
    hide *;
    assert Rerooted(from, Supplements(At(from, k)), Supplements(k)) by { SupplementsRerooted(from, k); }
    assert Rerooted(to, Supplements(At(to, k)), Supplements(k)) by { SupplementsRerooted(to, k); }
    r := OtherOf(Supplements(At(from, k)), Supplements(At(to, k)), Supplements(k), q, from, to);
  }

  lemma SupplementsRerooted(d: string, k: string)
    requires RootPath(d) && RelClean(k)
    ensures Rerooted(d, Supplements(At(d, k)), Supplements(k))
  {
    hide Supplements, Rerooted, RelClean;
    SupplementsAt(d, k);
  }

  lemma CleanKey(cfg: Config, l: Tree, d: Tree, k: string)
    requires LocalTree(cfg, l) && DeviceTree(d) && (At(cfg.source, k) in l || At(cfg.target, k) in d)
    ensures RelClean(k)
  {
    hide RelClean;
    assert LocalAt(cfg, l, At(cfg.source, k)) && DeviceAt(d, At(cfg.target, k));
    RelCleanJoin(cfg.target, k);
  }

  /** What stands where a directory is made is not taken for a page index. */
  lemma MirrorOf(c: Ctx, p: string, n: Node, r: string)
    requires ConfigOK(c.i.cfg) && Mirrors(c, p, n) && p == At(c.i.cfg.target, r)
    ensures At(c.i.cfg.source, r) in c.w0.local && (c.w0.local[At(c.i.cfg.source, r)].Directory? <==> n.Directory?)
    ensures RelClean(r)
  {
    hide RelClean, Dir;
    ScopesApart(c.i.cfg, p);
  }

  /** If the new node is a book, its page indexes were files already, on either side. */
  lemma NewBook(c: Ctx, d: Tree, p: string, n: Node, q: string)
    requires Adding(c, d, p, n) && BookAt(c.i.cfg, d[p := n], p) && Below(p, c.i.cfg.target)
    ensures q in Supplements(p) && q in d ==> d[q].File?
    ensures q in Supplements(At(c.i.cfg.source, Rel(p, c.i.cfg.target))) && q in c.w0.local ==> c.w0.local[q].File?
  {
    hide Supplements, RelClean, Ext, Base, LocalTree, DeviceTree, ThumbNamesOK, Compatible;
    var cfg, l := c.i.cfg, c.w0.local;
    var r := Rel(p, cfg.target);
    AtRel(p, cfg.target);
    MirrorOf(c, p, n, r);
    SameBase(cfg, r);
    assert BookAt(cfg, l, At(cfg.source, r));
    assert CrossAt(cfg, l, d, r, q) && SupplementAt(cfg, l, cfg.source, At(cfg.source, r), q);
  }

  /** If the new node is where a book of either side would have a page index, it is a file. */
  lemma NewIndex(c: Ctx, d: Tree, p: string, n: Node, k: string)
    requires Adding(c, d, p, n) && p in Supplements(At(c.i.cfg.target, k))
    requires BookAt(c.i.cfg, c.w0.local, At(c.i.cfg.source, k)) || BookAt(c.i.cfg, d, At(c.i.cfg.target, k))
    ensures n.File?
  {
    hide Supplements, RelClean, Ext, Base, LocalTree, DeviceTree, ThumbNamesOK, Compatible;
    var cfg, l := c.i.cfg, c.w0.local;
    CleanKey(cfg, l, d, k);
    var r := OtherSide(k, p, cfg.target, cfg.source);
    MirrorOf(c, p, n, r);
    var q := At(cfg.source, r);
    assert CrossAt(cfg, l, d, k, q) && SupplementAt(cfg, l, cfg.source, At(cfg.source, k), q);
  }

  lemma BookStays(cfg: Config, d: Tree, p: string, n: Node, b: string)
    requires p != b
    ensures BookAt(cfg, d[p := n], b) <==> BookAt(cfg, d, b)
  {
  }

  lemma SupplementsAdd(c: Ctx, d: Tree, p: string, n: Node)
    requires Adding(c, d, p, n)
    ensures SupplementsAreFiles(c.i.cfg, d[p := n], c.i.cfg.target)
  {
    hide Supplements, RelClean, LocalTree, DeviceTree, ThumbNamesOK, Compatible, Mirrors, BookAt, CrossIndexes;
    var cfg, e := c.i.cfg, d[p := n];
    forall b, q ensures SupplementAt(cfg, e, cfg.target, b, q) {
      assert SupplementAt(cfg, d, cfg.target, b, q);
      if BookAt(cfg, e, b) && Below(b, cfg.target) && q in Supplements(b) && q in e {
        if b == p {
          NewBook(c, d, p, n, q);
          if q == p { assert e[q].File? by { BookIsFile(cfg, e, p); } }
        } else {
          BookStays(cfg, d, p, n, b);
          AtRel(b, cfg.target);
          if q == p { NewIndex(c, d, p, n, Rel(b, cfg.target)); }
        }
      }
    }
  }

  lemma BookIsFile(cfg: Config, t: Tree, p: string)
    requires BookAt(cfg, t, p)
    ensures t[p].File?
  {
  }

  lemma CrossAdd(c: Ctx, d: Tree, p: string, n: Node)
    requires Adding(c, d, p, n)
    ensures CrossIndexes(c.i.cfg, c.w0.local, d[p := n])
  {
    hide Supplements, RelClean, LocalTree, DeviceTree, ThumbNamesOK, Compatible, Mirrors, BookAt, SupplementsAreFiles;
    var cfg, l, e := c.i.cfg, c.w0.local, d[p := n];
    forall k, q ensures CrossAt(cfg, l, e, k, q) {
      assert CrossAt(cfg, l, d, k, q);
      var b := At(cfg.target, k);
      if b == p {
        if BookAt(cfg, e, b) { NewBook(c, d, p, n, q); }
      } else {
        BookStays(cfg, d, p, n, b);
      }
      if BookAt(cfg, l, At(cfg.source, k)) && q in Supplements(b) && q == p { NewIndex(c, d, p, n, k); }
    }
  }

  lemma MatchedAdd(c: Ctx, d: Tree, p: string, n: Node)
    requires Adding(c, d, p, n)
    ensures Matched(c.i.cfg, c.w0.local, d[p := n])
  {
    hide Supplements, RelClean, LocalTree, DeviceTree, ThumbNamesOK, Compatible, Mirrors, BookAt, SupplementsAreFiles,
         CrossIndexes;
    CompatibleAdd(c, d, p, n);
    ThumbNamesAdd(c, d, p, n);
    SupplementsAdd(c, d, p, n);
    CrossAdd(c, d, p, n);
  }

  // ---------------------------------------------------------------------------------- one step

  /** What every world along a run has. */
  ghost predicate Between(c: Ctx, w: World) {
    LocalBetween(c, w.local) && DeviceBetween(c, w.device) && w.pics == c.w0.pics && !w.mail
  }

  lemma DeviceStepRemove(c: Ctx, d: Tree, p: string)
    requires CtxOK(c) && DeviceBetween(c, d) && CanRemove(d, p) && InScope(c.i.cfg, p)
    ensures DeviceBetween(c, d - {p})
  {
    hide WorldOK, ViewsOK, Matched, Dir, InScope;
    var cfg, l := c.i.cfg, c.w0.local;
    CtxConfig(c);
    DeviceTreeRemove(d, p);
    forall q ensures PartAt(d - {p}, d, q) && PartAt(l, l, q) {}
    MatchedPart(cfg, l, l, d, d - {p});
    if Dir(cfg.target) != "." { TargetParentOutside(cfg); }
  }

  lemma AddingFor(c: Ctx, d: Tree, p: string, n: Node)
    requires CtxOK(c) && DeviceBetween(c, d) && Free(d, p) && MayCreate(c, p, n)
    ensures Adding(c, d, p, n)
  {
    hide Matched, ViewsOK, MayCreate, RelClean;
    CtxConfig(c);
    CreatedMirrors(c, p, n);
    CreatedClean(c, p, n);
    assert RelClean(c.i.cfg.target) && LocalTree(c.i.cfg, c.w0.local);
    RelCleanEnds(c.i.cfg.target);
    if Below(p, THUMBNAIL_FOLDER) {
      if p == c.i.cfg.target || Below(p, c.i.cfg.target) { ScopesApart(c.i.cfg, p); }
    }
  }

  lemma DeviceStepAdd(c: Ctx, d: Tree, p: string, n: Node)
    requires CtxOK(c) && DeviceBetween(c, d) && Free(d, p) && MayCreate(c, p, n)
    ensures DeviceBetween(c, d[p := n])
  {
    hide CtxOK, Matched, MayCreate, RelClean, Adding;
    AddingFor(c, d, p, n);
    CreatedClean(c, p, n);
    DeviceTreeCreate(d, p, n);
    MatchedAdd(c, d, p, n);
  }

  lemma DeviceStepCopy(c: Ctx, d: Tree, p: string, n: Option<Node>)
    requires CtxOK(c) && DeviceBetween(c, d) && CanCopy(d, p, n) && MayCreate(c, p, n.value)
    ensures DeviceBetween(c, d[p := n.value])
  {
    hide CtxOK, DeviceBetween, MayCreate, Free;
    if Free(d, p) { DeviceStepAdd(c, d, p, n.value); } else { assert d[p := n.value] == d; }
  }

  lemma CopiedMay(c: Ctx, w: World, o: Obj)
    requires CtxOK(c) && Between(c, w) && Readable(w, o.from)
    requires CopyFor(c.i.cfg, c.rels, o.path, o.from) || ThumbFor(c.i.cfg, c.names, o.path, o.from)
    ensures MayCreate(c, o.path, HostFile(w, o.from).value)
  {
    hide Matched, ViewsOK, DeviceBetween, LocalTree, CrossIndexes, SupplementsAreFiles, ThumbNamesOK, Compatible;
    if CopyFor(c.i.cfg, c.rels, o.path, o.from) {
      assert PicAt(c.i.cfg, c.w0.pics, o.from) && LocalKept(c, w.local, o.from);
    }
  }

  lemma StepBetween(c: Ctx, w: World, acts: seq<Action>, j: int)
    requires CtxOK(c) && Between(c, w) && 0 <= j < |acts| && ReasonAt(c, acts, j) && CanStep(w, acts[j])
    requires acts[j].actor.Dst? ==> InScope(c.i.cfg, acts[j].obj.path)
    ensures Between(c, Step(w, acts[j]))
  {
    hide CtxOK, LocalBetween, DeviceBetween, InScope, Free, HostFile, CopyFor, ThumbFor, DirFor, CanRemove;
    var a := acts[j];
    if a.actor.Src? {
      LocalStep(c, w, a, acts, j);
    } else {
      match a.kind
      case Remove => DeviceStepRemove(c, w.device, a.obj.path);
      case MkDir =>
        assert MayCreate(c, a.obj.path, Directory);
        DeviceStepAdd(c, w.device, a.obj.path, Directory);
      case Copy =>
        CopiedMay(c, w, a.obj);
        DeviceStepCopy(c, w.device, a.obj.path, HostFile(w, a.obj.from));
    }
  }

  lemma BetweenStart(c: Ctx)
    requires CtxOK(c)
    ensures Between(c, c.w0)
  {
    hide DeviceTree, TargetParent, Compatible, SupplementsAreFiles, CrossIndexes, ThumbNamesOK, LocalView, DeviceView,
         HistoryView, OwnObjects, NoRawKeys;
    assert Matched(c.i.cfg, c.w0.local, c.w0.device);
    forall p ensures LocalKept(c, c.w0.local, p) {}
  }

  /** What every world along a run has, it keeps to wherever the run stops. */
  lemma {:induction false} PrefixBetween(c: Ctx, acts: seq<Action>, n: nat)
    requires CtxOK(c) && Reasons(c, acts) && n <= |acts| && !Exec(c.w0, acts).failed
    requires forall j :: 0 <= j < |acts| && acts[j].actor.Dst? ==> InScope(c.i.cfg, acts[j].obj.path)
    ensures Between(c, Exec(c.w0, acts[..n]).world)
    decreases n
  {
    hide CtxOK, Between, InScope, CanStep, Step;
    if n == 0 {
      BetweenStart(c);
    } else {
      PrefixBetween(c, acts, n - 1);
      ExecPrefix(c.w0, acts, n);
      assert acts[..n][..n - 1] == acts[..n - 1];
      assert ReasonAt(c, acts, n - 1);
      StepBetween(c, Exec(c.w0, acts[..n - 1]).world, acts, n - 1);
    }
  }

  lemma BetweenOK(c: Ctx, w: World)
    requires CtxOK(c) && Between(c, w)
    ensures WorldOK(c.i.cfg, w)
  {
    hide LocalTree, DeviceTree, ViewsOK, TargetParent, ConfigOK, PicsOK, Compatible, SupplementsAreFiles,
         CrossIndexes, ThumbNamesOK;
    forall p ensures PartAt(w.local, c.w0.local, p) && PartAt(w.device, w.device, p) {
      assert LocalKept(c, w.local, p);
    }
    MatchedPart(c.i.cfg, c.w0.local, w.local, w.device, w.device);
  }

  /** Wherever a run stops, the hypotheses about the file systems hold again. */
  lemma HypothesesKept(i: Inputs, b: Subsets, s: PState, w: World, n: nat)
    requires RunOK(i, b, w) && IsPlan(i, b, s) && n <= |s.acts|
    ensures var r := Exec(w, s.acts[..n]);
              !r.failed && WorldOK(i.cfg, r.world) && !r.world.mail && r.world.pics == w.pics
  {
    hide *;
    PlanEnds(i, b, s, w);
    EndedBetween(i, b, w, s, n);
  }

  lemma EndedBetween(i: Inputs, b: Subsets, w: World, s: PState, n: nat)
    requires RunOK(i, b, w) && IsPlan(i, b, s) && n <= |s.acts|
    ensures Between(CtxFor(i, b, w), Exec(w, s.acts[..n]).world) && CtxOK(CtxFor(i, b, w))
    ensures !Exec(w, s.acts[..n]).failed
    ensures WorldOK(i.cfg, Exec(w, s.acts[..n]).world) && Exec(w, s.acts[..n]).world.pics == w.pics
    ensures !Exec(w, s.acts[..n]).world.mail
  {
    hide IsPlan, RunOK, Ended, CtxFor, Exec, InScope, CtxOK, WorldOK, Reasons, LocalBetween, DeviceBetween;
    PlanEnds(i, b, s, w);
    var c := CtxFor(i, b, w);
    CtxInputs(i, b, w);
    EndedHasReasons(i, b, w, s);
    ScopedActions(i, b, w, s);
    PrefixBetween(c, s.acts, n);
    ExecPrefix(w, s.acts, n);
    BetweenOK(c, Exec(w, s.acts[..n]).world);
  }

  // ---------------------------------------------------------------------------------- one path

  /** What the device has at a path after the first `n` actions: what it had, nothing because the plan removes what
      was there, what the plan puts there, or nothing because the copy that replaces it is next. */
  ghost predicate StatusAt(c: Ctx, acts: seq<Action>, n: nat, d: Tree, p: string) {
    || Lookup(d, p) == Lookup(c.w0.device, p)
    || (p !in d && p in c.okDst)
    || (p in d && MayCreate(c, p, d[p]))
    || (p !in d && Splits(acts, n, p))
  }

  /** The run stopped between the removal of `p` and the copy that replaces it. */
  predicate Splits(acts: seq<Action>, n: nat, p: string) {
    0 < n < |acts| && Is(acts[n - 1], Dst, Remove, p) && Is(acts[n], Dst, Copy, p)
  }

  lemma StepStatus(c: Ctx, w: World, acts: seq<Action>, n: nat, p: string)
    requires CtxOK(c) && Between(c, w) && n < |acts| && ReasonAt(c, acts, n) && CanStep(w, acts[n])
    requires StatusAt(c, acts, n, w.device, p)
    ensures StatusAt(c, acts, n + 1, Step(w, acts[n]).device, p)
  {
    hide CtxOK, LocalBetween, DeviceBetween, InScope, Free, HostFile, CopyFor, ThumbFor, DirFor, CanRemove;
    var a := acts[n];
    if a.actor.Dst? && a.obj.path == p && !a.kind.Remove? {
      if a.kind.MkDir? { assert MayCreate(c, p, Directory); } else { CopiedMay(c, w, a.obj); }
    }
  }

  lemma {:induction false} PrefixStatus(c: Ctx, acts: seq<Action>, n: nat, p: string)
    requires CtxOK(c) && Reasons(c, acts) && n <= |acts| && !Exec(c.w0, acts).failed
    requires forall j :: 0 <= j < |acts| && acts[j].actor.Dst? ==> InScope(c.i.cfg, acts[j].obj.path)
    ensures StatusAt(c, acts, n, Exec(c.w0, acts[..n]).world.device, p)
    decreases n
  {
    hide CtxOK, Between, InScope, CanStep, Step, MayCreate, Lookup;
    if n > 0 {
      PrefixStatus(c, acts, n - 1, p);
      PrefixBetween(c, acts, n - 1);
      ExecPrefix(c.w0, acts, n);
      assert acts[..n][..n - 1] == acts[..n - 1];
      assert ReasonAt(c, acts, n - 1);
      StepStatus(c, Exec(c.w0, acts[..n - 1]).world, acts, n - 1, p);
    }
  }

  lemma EndedStatus(i: Inputs, b: Subsets, w: World, s: PState, n: nat, p: string)
    requires RunOK(i, b, w) && IsPlan(i, b, s) && n <= |s.acts|
    ensures StatusAt(CtxFor(i, b, w), s.acts, n, Exec(w, s.acts[..n]).world.device, p)
    ensures LocalBetween(CtxFor(i, b, w), Exec(w, s.acts[..n]).world.local)
    ensures CtxOK(CtxFor(i, b, w)) && Reasons(CtxFor(i, b, w), s.acts)
  {
    hide IsPlan, RunOK, Ended, CtxFor, Exec, InScope, CtxOK, WorldOK, Reasons, LocalBetween, DeviceBetween, StatusAt;
    PlanEnds(i, b, s, w);
    CtxInputs(i, b, w);
    EndedHasReasons(i, b, w, s);
    ScopedActions(i, b, w, s);
    EndedBetween(i, b, w, s, n);
    PrefixStatus(CtxFor(i, b, w), s.acts, n, p);
  }
}
