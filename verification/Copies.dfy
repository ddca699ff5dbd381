/** The copy loop (case 3): directories on the way down, replacement of files, thumbnails, and the device it leads to.
    */
module Copies {
  import opened Paths
  import opened InfoSet
  import opened Plan
  import opened FileSystem
  import opened WellFormed
  import opened Invariant
  import opened LocalPhase
  import opened Removals
  import opened DeviceRemovals

  // ---------------------------------------------------------------------------------- the device in closed form

  /** What lies at `p` once the files `J` and the thumbnails `N` have been copied to the device `dev6`. */
  ghost function Expected(c: Ctx, dev6: Tree, J: set<string>, N: set<string>, p: string): Option<Node> {
    var cfg := c.i.cfg;
    if Below(p, cfg.target) && Rel(p, cfg.target) in J then Lookup(c.w0.local, At(cfg.source, Rel(p, cfg.target)))
    else if Below(p, THUMBNAIL_FOLDER) && Rel(p, THUMBNAIL_FOLDER) in N
        then Lookup(c.w0.pics, Join(cfg.thumbDir, Rel(p, THUMBNAIL_FOLDER)))
    else if p in dev6 then Some(dev6[p])
    else if DirFor(cfg, J, p) then Some(Directory)
    else None
  }

  function Lookup(t: Tree, p: string): Option<Node> {
    if p in t then Some(t[p]) else None
  }

  ghost predicate FormAt(c: Ctx, dev6: Tree, J: set<string>, N: set<string>, dev: Tree, p: string) {
    Lookup(dev, p) == Expected(c, dev6, J, N, p)
  }

  ghost predicate DeviceForm(c: Ctx, dev6: Tree, J: set<string>, N: set<string>, dev: Tree) {
    forall p :: FormAt(c, dev6, J, N, dev, p)
  }

  /** The closed form determines the device. */
  lemma DeviceFormUnique(c: Ctx, dev6: Tree, J: set<string>, N: set<string>, d: Tree, e: Tree)
    requires DeviceForm(c, dev6, J, N, d) && DeviceForm(c, dev6, J, N, e)
    ensures d == e
  {
    forall p ensures Lookup(d, p) == Lookup(e, p) { assert FormAt(c, dev6, J, N, d, p) && FormAt(c, dev6, J, N, e, p); }
    forall p | p in d ensures p in e && e[p] == d[p] { assert Lookup(d, p) == Lookup(e, p); }
    forall p | p in e ensures p in d { assert Lookup(d, p) == Lookup(e, p); }
  }

  // ---------------------------------------------------------------------------------- directories

  /** `p` is on the way from `root` down to `full`. */
  predicate OnChain(p: string, root: string, full: string) {
    AtOrBelow(p, root) && AtOrBelow(full, p)
  }

  ghost predicate ChainAt(root: string, full: string, dev: Tree, dev': Tree, p: string) {
    Lookup(dev', p) == if p in dev then Some(dev[p]) else if OnChain(p, root, full) then Some(Directory) else None
  }

  ghost predicate ChainForm(root: string, full: string, dev: Tree, dev': Tree) {
    forall p :: ChainAt(root, full, dev, dev', p)
  }

  ghost predicate DirKind(c: Ctx, s: PState, p: string) {
    DirFor(c.i.cfg, c.rels, p) && p in s.dst ==> s.dst[p].dir
  }

  ghost predicate DirsAreDirs(c: Ctx, s: PState) {
    forall p :: DirKind(c, s, p)
  }

  ghost predicate Copying(c: Ctx, used: set<string>, s: PState) {
    Inv(c, used, s) && Untouched(c, s)
  }

  ghost predicate OutsideAt(cfg: Config, s: PState, t: PState, p: string) {
    !AtOrBelow(p, cfg.target) ==> (p in t.dst <==> p in s.dst) && (p in s.dst && p in t.dst ==> t.dst[p] == s.dst[p])
  }

  /** Actions are only added, and the mirror changes only at and below the target. */
  ghost predicate SameOutside(cfg: Config, s: PState, t: PState) {
    s.acts <= t.acts && forall p :: OutsideAt(cfg, s, t, p)
  }

  lemma OutsideTrans(cfg: Config, s: PState, t: PState, u: PState)
    requires SameOutside(cfg, s, t) && SameOutside(cfg, t, u)
    ensures SameOutside(cfg, s, u)
  {
    forall p ensures OutsideAt(cfg, s, u, p) { assert OutsideAt(cfg, s, t, p) && OutsideAt(cfg, t, u, p); }
  }

  /** Within the managed area the mirror and the device have the same paths. */
  lemma MirrorMember(c: Ctx, used: set<string>, s: PState, p: string)
    requires Inv(c, used, s) && InScope(c.i.cfg, p)
    ensures p in s.dst <==> p in Now(c, s).device
    ensures p in s.dst ==> (s.dst[p].dir <==> Now(c, s).device[p].Directory?) && s.dst[p].path == p
  {
    assert DeviceObjectAt(c.i.cfg, c.i.dst, c.w0.device, p);
    assert SimDevice(c, s, Now(c, s));
  }

  lemma EnsureDirIs(s: PState, p: string)
    requires p != ""
    ensures var t := EnsureDir(s, p);
            && t.src == s.src && t.thumbs == s.thumbs && s.acts <= t.acts
            && (p in s.dst ==> t == s)
            && (p !in s.dst ==> p in t.dst && t.dst[p].dir && t.dst == s.dst[p := t.dst[p]])
  {
    hide Base;
  }

  lemma EnsureDirInv(c: Ctx, used: set<string>, s: PState, p: string)
    requires Copying(c, used, s) && DirsAreDirs(c, s) && DirFor(c.i.cfg, c.rels, p) && p != ""
    requires p == c.i.cfg.target || (Dir(p) in s.dst && s.dst[Dir(p)].dir)
    ensures var t := EnsureDir(s, p);
            && Copying(c, used, t) && DirsAreDirs(c, t) && t.src == s.src && t.thumbs == s.thumbs
            && p in t.dst && t.dst[p].dir && SameOutside(c.i.cfg, s, t)
            && Now(c, t) == Now(c, s).(
                 device := if p in Now(c, s).device then Now(c, s).device else Now(c, s).device[p := Directory])
  {
    hide Inv, Untouched, Exec, Dir, Base, EnsureDir;
    MirrorMember(c, used, s, p);
    assert DirKind(c, s, p);
    var t := EnsureDir(s, p);
    EnsureDirIs(s, p);
    if p !in s.dst {
      InvMakeDir(c, used, s, p, t);
      forall q ensures DirKind(c, t, q) { assert DirKind(c, s, q); }
      forall q ensures OutsideAt(c.i.cfg, s, t, q) {}
    } else {
      forall q ensures OutsideAt(c.i.cfg, s, s, q) {}
    }
  }

  lemma OnChainSnoc(p: string, root: string, full: string, c: string)
    requires RootPath(root) && RootPath(full) && AtOrBelow(full, root) && CleanPart(c)
    ensures OnChain(p, root, At(full, c)) <==> OnChain(p, root, full) || p == At(full, c)
  {
    var next := At(full, c);
    DirJoin(full, c);
    if full != root { BelowTrans(next, full, root); }
    if Below(next, p) && AtOrBelow(p, root) {
      AncestorOfDir(next, p);
    }
    if AtOrBelow(full, p) && p != full { BelowTrans(next, full, p); }
  }

  lemma ChainFormSnoc(root: string, full: string, c: string, d: Tree, e: Tree, f: Tree)
    requires RootPath(root) && RootPath(full) && AtOrBelow(full, root) && CleanPart(c)
    requires ChainForm(root, full, d, e)
    requires f == if At(full, c) in e then e else e[At(full, c) := Directory]
    ensures ChainForm(root, At(full, c), d, f)
  {
    forall p ensures ChainAt(root, At(full, c), d, f, p) {
      assert ChainAt(root, full, d, e, p);
      OnChainSnoc(p, root, full, c);
    }
  }

  ghost predicate Chained(c: Ctx, used: set<string>, s: PState, t: PState, full: string) {
    && Copying(c, used, t) && DirsAreDirs(c, t) && t.src == s.src && t.thumbs == s.thumbs
    && full in t.dst && t.dst[full].dir && SameOutside(c.i.cfg, s, t)
    && Now(c, t) == Now(c, s).(device := Now(c, t).device)
    && ChainForm(c.i.cfg.target, full, Now(c, s).device, Now(c, t).device)
  }

  lemma ChainStart(c: Ctx, used: set<string>, s: PState, r: string)
    requires Copying(c, used, s) && DirsAreDirs(c, s) && r in c.rels && ConfigOK(c.i.cfg)
    ensures Chained(c, used, s, EnsureDir(s, c.i.cfg.target), c.i.cfg.target)
  {
    hide Copying, DirsAreDirs, SameOutside, EnsureDir, Exec, RelClean;
    var target := c.i.cfg.target;
    RelCleanEnds(target);
    assert DirFor(c.i.cfg, c.rels, target) by { assert Below(At(target, r), target); }
    EnsureDirInv(c, used, s, target);
    forall p ensures ChainAt(target, target, Now(c, s).device, Now(c, EnsureDir(s, target)).device, p) {
    }
  }

  lemma ChainNext(c: Ctx, used: set<string>, s: PState, t: PState, r: string, full: string, part: string)
    requires Chained(c, used, s, t, full) && r in c.rels && CleanPart(part)
    requires RootPath(c.i.cfg.target) && RootPath(full) && AtOrBelow(full, c.i.cfg.target)
    requires Below(At(c.i.cfg.target, r), At(full, part))
    ensures Chained(c, used, s, EnsureDir(t, At(full, part)), At(full, part))
  {
    var target, next := c.i.cfg.target, At(full, part);
    DirJoin(full, part);
    if full != target { BelowTrans(next, full, target); }
    assert DirFor(c.i.cfg, c.rels, next);
    EnsureDirInv(c, used, t, next);
    OutsideTrans(c.i.cfg, s, t, EnsureDir(t, next));
    ChainFormSnoc(target, full, part, Now(c, s).device, Now(c, t).device, Now(c, EnsureDir(t, next)).device);
  }

  /** makeCreateDirActions: every directory from the target down to the parent of the file exists afterwards, and
      nothing else is created. */
  lemma {:induction false} CreateDirsInv(c: Ctx, used: set<string>, s: PState, r: string, parts: seq<string>)
    requires Copying(c, used, s) && DirsAreDirs(c, s) && r in c.rels && ConfigOK(c.i.cfg)
    requires forall x :: x in parts ==> CleanPart(x)
    requires Below(At(c.i.cfg.target, r), JoinAll(c.i.cfg.target, parts))
    ensures Chained(c, used, s, CreateDirs(s, c.i.cfg.target, parts), JoinAll(c.i.cfg.target, parts))
    decreases |parts|
  {
    hide Copying, DirsAreDirs, Chained, EnsureDir, CleanPart, RelClean;
    var target := c.i.cfg.target;
    RelCleanEnds(target);
    if parts == [] {
      ChainStart(c, used, s, r);
    } else {
      var pre, part := parts[..|parts| - 1], parts[|parts| - 1];
      assert CleanPart(part);
      JoinAllRoot(target, pre);
      DirJoin(JoinAll(target, pre), part);
      assert JoinAll(target, parts) == At(JoinAll(target, pre), part);
      BelowTrans(At(target, r), JoinAll(target, parts), JoinAll(target, pre));
      CreateDirsInv(c, used, s, r, pre);
      ChainNext(c, used, s, CreateDirs(s, target, pre), r, JoinAll(target, pre), part);
    }
  }

  /** The components of the directory of a relative path lead to the parent of the re-rooted path. */
  lemma DirPartsLead(target: string, r: string)
    requires RootPath(target) && RelClean(r)
    ensures JoinAll(target, DirParts(Dir(r))) == Dir(At(target, r))
    ensures forall x :: x in DirParts(Dir(r)) ==> CleanPart(x)
    ensures Below(At(target, r), Dir(At(target, r)))
  {
    RelCleanDir(r);
    DirAt(target, r);
    DirOfBelow(At(target, r), target);
    if Dir(r) != "." {
      JoinAllSplit(target, Dir(r));
    }
  }

  // ---------------------------------------------------------------------------------- one file

  ghost predicate BaseAt(c: Ctx, dev6: Tree, p: string) {
    p in dev6 ==> p in c.w0.device && dev6[p] == c.w0.device[p]
  }

  /** The device before the copies is a part of the one the run started from. */
  ghost predicate BaseOK(c: Ctx, dev6: Tree) {
    forall p :: BaseAt(c, dev6, p)
  }

  /** A copied path is not above another copied path: one is a file in the local tree, the other a directory. */
  lemma FileNotDir(c: Ctx, r: string)
    requires CtxOK(c) && r in c.rels
    ensures !DirFor(c.i.cfg, c.rels, At(c.i.cfg.target, r))
  {
    var cfg := c.i.cfg;
    if DirFor(cfg, c.rels, At(cfg.target, r)) {
      var q :| q in c.rels && Below(At(cfg.target, q), At(cfg.target, r));
      RerootBelow(cfg.target, q, r);
      RerootBelow(cfg.source, q, r);
      SourceIsTree(c);
      assert RelAt(c, q) && RelAt(c, r);
      assert LocalObject(c.i.src, c.w0.local, At(cfg.source, r));
      AboveIsDir(c.i.src, cfg.source, At(cfg.source, q), At(cfg.source, r));
    }
  }

  /** Wherever a file is copied to, there is a file or nothing. */
  lemma FileOrNothing(c: Ctx, dev6: Tree, J: set<string>, N: set<string>, dev: Tree, r: string)
    requires CtxOK(c) && BaseOK(c, dev6) && J <= c.rels && r in c.rels
    requires FormAt(c, dev6, J, N, dev, At(c.i.cfg.target, r))
    ensures At(c.i.cfg.target, r) in dev ==> dev[At(c.i.cfg.target, r)].File?
  {
    var cfg, x := c.i.cfg, At(c.i.cfg.target, r);
    ScopesApart(cfg, x);
    FileNotDir(c, r);
    assert RelAt(c, r) && BaseAt(c, dev6, x);
    assert SameKind(c.w0.local, At(cfg.source, r), c.w0.device, At(cfg.target, r));
    assert DirFor(cfg, J, x) ==> DirFor(cfg, c.rels, x);
  }

  lemma DirForSnoc(cfg: Config, J: set<string>, r: string, p: string)
    requires RootPath(cfg.target) && Below(At(cfg.target, r), Dir(At(cfg.target, r)))
    ensures DirFor(cfg, J + {r}, p) <==> DirFor(cfg, J, p) || OnChain(p, cfg.target, Dir(At(cfg.target, r)))
  {
    var x := At(cfg.target, r);
    if AtOrBelow(p, cfg.target) {
      if Below(x, p) { AncestorOfDir(x, p); }
      if Below(Dir(x), p) { BelowTrans(x, Dir(x), p); }
    }
    if DirFor(cfg, J, p) {
      var q :| q in J && Below(At(cfg.target, q), p);
      assert q in J + {r};
    }
    if OnChain(p, cfg.target, Dir(x)) { assert r in J + {r}; }
    if DirFor(cfg, J + {r}, p) && !DirFor(cfg, J, p) {
      var q :| q in J + {r} && Below(At(cfg.target, q), p);
      assert q == r;
    }
  }

  /** The closed form after the directories and the file `r`. */
  lemma FormSnoc(c: Ctx, dev6: Tree, J: set<string>, N: set<string>, dev: Tree, dev1: Tree, r: string, n: Node)
    requires CtxOK(c) && J <= c.rels && r in c.rels
    requires DeviceForm(c, dev6, J, N, dev)
    requires ChainForm(c.i.cfg.target, Dir(At(c.i.cfg.target, r)), dev, dev1)
    requires Lookup(c.w0.local, At(c.i.cfg.source, r)) == Some(n)
    ensures DeviceForm(c, dev6, J + {r}, N, dev1[At(c.i.cfg.target, r) := n])
  {
    var cfg, x := c.i.cfg, At(c.i.cfg.target, r);
    RelCleanEnds(cfg.target);
    assert RelAt(c, r);
    DirPartsLead(cfg.target, r);
    var e := dev1[x := n];
    forall p ensures FormAt(c, dev6, J + {r}, N, e, p) {
      assert FormAt(c, dev6, J, N, dev, p) && ChainAt(cfg.target, Dir(x), dev, dev1, p);
      DirForSnoc(cfg, J, r, p);
      FormSnocAt(c, dev6, J, N, dev, dev1, r, n, p);
    }
  }

  lemma FormSnocAt(c: Ctx, dev6: Tree, J: set<string>, N: set<string>, dev: Tree, dev1: Tree, r: string, n: Node,
                   p: string)
    requires ConfigOK(c.i.cfg) && J <= c.rels && (forall q :: RelAt(c, q))
    requires FormAt(c, dev6, J, N, dev, p) && ChainAt(c.i.cfg.target, Dir(At(c.i.cfg.target, r)), dev, dev1, p)
    requires DirFor(c.i.cfg, J + {r}, p) <==>
              DirFor(c.i.cfg, J, p) || OnChain(p, c.i.cfg.target, Dir(At(c.i.cfg.target, r)))
    requires Lookup(c.w0.local, At(c.i.cfg.source, r)) == Some(n)
    ensures FormAt(c, dev6, J + {r}, N, dev1[At(c.i.cfg.target, r) := n], p)
  {
    hide DirFor, RelClean;
    var cfg, x := c.i.cfg, At(c.i.cfg.target, r);
    if AtOrBelow(p, cfg.target) { ScopesApart(cfg, p); }
    if Below(p, cfg.target) {
      AtRel(p, cfg.target);
      assert RelAt(c, Rel(p, cfg.target));
    }
    assert Lookup(dev1[x := n], p) == if p == x then Some(n) else Lookup(dev1, p);
  }

  // ---------------------------------------------------------------------------------- thumbnails

  /** The thumbnail set has the enumerated object under this name. */
  ghost predicate KnownThumb(c: Ctx, s: PState, n: string)
    requires n in s.thumbs
  {
    var to, o := At(THUMBNAIL_FOLDER, n), s.thumbs[n];
    to in c.i.dst && o == c.i.dst[to] && o.path == to && !o.dir && o.thumb == "" && o.id < c.i.next
  }

  /** A thumbnail still to be copied is in the thumbnail set exactly when it is on the device, and it is that object;
      one that was copied is on the device, and if it is in the set, the enumerated object was removed for it. */
  ghost predicate ThumbSeen(c: Ctx, N: set<string>, s: PState, n: string) {
    n in c.names ==>
      var to := At(THUMBNAIL_FOLDER, n);
      && (n in s.thumbs ==> KnownThumb(c, s, n))
      && (n !in N ==> (n in s.thumbs <==> to in s.dst) && (n in s.thumbs ==> s.thumbs[n] == s.dst[to]))
      && (n in N ==> to in s.dst && !s.dst[to].dir && (n in s.thumbs ==> RemovedBefore(s.acts, s.thumbs[n])))
  }

  ghost predicate ThumbsSeen(c: Ctx, N: set<string>, s: PState) {
    forall n :: ThumbSeen(c, N, s, n)
  }

  /** The state of the copy loop once the files `J` and the thumbnails `N` are copied. */
  ghost predicate State3(c: Ctx, used: set<string>, src6: OIS, dev6: Tree, J: set<string>, N: set<string>, s: PState) {
    && Copying(c, used, s) && DirsAreDirs(c, s) && ThumbsSeen(c, N, s)
    && s.src == src6 && J <= c.rels && N <= c.names && BaseOK(c, dev6)
    && DeviceForm(c, dev6, J, N, Now(c, s).device)
  }

  /** A copy to a path that is free or holds a file. */
  lemma PlaceInv(c: Ctx, used: set<string>, s: PState, o: Obj)
    requires Copying(c, used, s)
    requires InScope(c.i.cfg, o.path) && o.path != "" && ParentReady(c, s, o.path)
    requires o.path in s.dst ==> !s.dst[o.path].dir
    requires o.id == s.next && !o.dir && Readable(Now(c, s), o.from)
    requires o.path in s.dst && Below(o.path, THUMBNAIL_FOLDER) ==> s.dst[o.path].id < c.i.next
    requires (CopyFor(c.i.cfg, c.rels, o.path, o.from) || ThumbFor(c.i.cfg, c.names, o.path, o.from))
    requires o.name == Base(o.path)
    ensures var t := PlaceObj(RemovePrev(s, o.path), o);
            && Copying(c, used, t) && t.src == s.src && t.thumbs == s.thumbs
            && t.dst == s.dst[o.path := o]
            && Now(c, t) == Now(c, s).(device := Now(c, s).device[o.path := HostFile(Now(c, s), o.from).value])
  {
    hide Inv, Untouched, Exec, InScope, ParentReady, CopyFor, ThumbFor, Readable;
    if o.path in s.dst {
      InvCopyReplace(c, used, s, o);
    } else {
      InvCopyFresh(c, used, s, o);
    }
  }

  lemma HostLocal(c: Ctx, used: set<string>, s: PState, r: string)
    requires Inv(c, used, s) && r in c.rels && At(c.i.cfg.source, r) in s.src
    ensures Readable(Now(c, s), At(c.i.cfg.source, r))
    ensures HostFile(Now(c, s), At(c.i.cfg.source, r)) == Lookup(c.w0.local, At(c.i.cfg.source, r))
    ensures HostFile(Now(c, s), At(c.i.cfg.source, r)).Some?
  {
    var p := At(c.i.cfg.source, r);
    assert RelAt(c, r) && PicAt(c.i.cfg, c.w0.pics, p);
    assert SimLocal(c, s, Now(c, s));
  }

  /** After the directories for `r` are there, the file can be placed. */
  lemma ReadyToPlace(c: Ctx, used: set<string>, s: PState, s1: PState, dev6: Tree, J: set<string>, N: set<string>,
                     r: string)
    requires CtxOK(c) && Chained(c, used, s, s1, Dir(At(c.i.cfg.target, r))) && r in c.rels && J <= c.rels
    requires BaseOK(c, dev6)
    requires DeviceForm(c, dev6, J, N, Now(c, s).device) && RelClean(r)
    ensures var x := At(c.i.cfg.target, r);
            && InScope(c.i.cfg, x) && x != "" && ParentReady(c, s1, x) && (x in s1.dst ==> !s1.dst[x].dir)
  {
    var x := At(c.i.cfg.target, r);
    RelCleanEnds(c.i.cfg.target);
    DirPartsLead(c.i.cfg.target, r);
    MirrorMember(c, used, s1, x);
    assert FormAt(c, dev6, J, N, Now(c, s).device, x);
    FileOrNothing(c, dev6, J, N, Now(c, s).device, r);
    assert ChainAt(c.i.cfg.target, Dir(x), Now(c, s).device, Now(c, s1).device, x);
    BelowAsym(x, Dir(x));
  }

  /** makeCopyActions unfolded for a file of the source. */
  lemma CopyObjectIs(c: Ctx, s: PState, r: string, obj: Obj)
    requires RootPath(c.i.cfg.target) && RelClean(r) && obj.path == At(c.i.cfg.source, r)
    ensures var s1 := CreateDirs(s, c.i.cfg.target, DirParts(Dir(r)));
            var x := At(c.i.cfg.target, r);
            var s2 := RemovePrev(s1, x);
            CopyObject(c.i.cfg, false, s, obj) == PlaceObj(s2, Obj(s2.next, obj.name, obj.pid, false, x, "", obj.path))
  {
    hide CreateDirs, RemovePrev, RelClean;
    RelCleanEnds(r);
    TrimBelow(obj.path, c.i.cfg.source);
    assert Join(c.i.cfg.target, r) == At(c.i.cfg.target, r);
  }

  lemma ThumbsSeenCopy(c: Ctx, N: set<string>, s: PState, t: PState)
    requires ConfigOK(c.i.cfg) && ThumbsSeen(c, N, s)
    requires t.thumbs == s.thumbs && SameOutside(c.i.cfg, s, t)
    ensures ThumbsSeen(c, N, t)
  {
    forall n ensures ThumbSeen(c, N, t, n) {
      assert ThumbSeen(c, N, s, n);
      var p := At(THUMBNAIL_FOLDER, n);
      assert OutsideAt(c.i.cfg, s, t, p);
      if AtOrBelow(p, c.i.cfg.target) { ScopesApart(c.i.cfg, p); }
      if n in s.thumbs { RemovedStays(s.acts, t.acts, s.thumbs[n]); }
    }
  }

  lemma RemovedStays(a: seq<Action>, b: seq<Action>, o: Obj)
    requires a <= b
    ensures RemovedBefore(a, o) ==> RemovedBefore(b, o)
  {
    if RemovedBefore(a, o) {
      var m :| 0 <= m < |a| && a[m] == Action(Dst, Remove, o);
      assert b[m] == a[m];
    }
  }

  lemma PlaceActs(s: PState, o: Obj)
    ensures s.acts <= PlaceObj(RemovePrev(s, o.path), o).acts
  {
  }

  lemma DirsAreDirsPlace(c: Ctx, s: PState, t: PState, o: Obj)
    requires DirsAreDirs(c, s) && t.dst == s.dst[o.path := o] && !DirFor(c.i.cfg, c.rels, o.path)
    ensures DirsAreDirs(c, t)
  {
    forall p ensures DirKind(c, t, p) { assert DirKind(c, s, p); }
  }

  ghost function CopiedObj(c: Ctx, s1: PState, r: string, obj: Obj): Obj {
    Obj(s1.next, obj.name, obj.pid, false, At(c.i.cfg.target, r), "", obj.path)
  }

  lemma CopyReason(c: Ctx, r: string)
    requires CtxOK(c) && r in c.rels
    ensures CopyFor(c.i.cfg, c.rels, At(c.i.cfg.target, r), At(c.i.cfg.source, r))
    ensures !Below(At(c.i.cfg.target, r), THUMBNAIL_FOLDER)
  {
    assert RelAt(c, r);
    ScopesApart(c.i.cfg, At(c.i.cfg.target, r));
  }

  lemma CopyNamed(c: Ctx, used: set<string>, s: PState, r: string)
    requires Inv(c, used, s) && r in c.rels && At(c.i.cfg.source, r) in s.src
    ensures s.src[At(c.i.cfg.source, r)].name == Base(At(c.i.cfg.target, r))
  {
    hide Objects, Reasons, Parents, FreshCopies, SimDevice, Base, RelClean;
    assert SimLocal(c, s, Now(c, s));
    assert RelAt(c, r) && LocalObject(c.i.src, c.w0.local, At(c.i.cfg.source, r));
    RelCleanEnds(c.i.cfg.target);
    DirAt(c.i.cfg.source, r);
    DirAt(c.i.cfg.target, r);
  }

  /** Making the directories and placing the file changes the mirror at and below the target only. */
  lemma PlaceOutside(cfg: Config, s: PState, s1: PState, o: Obj)
    requires SameOutside(cfg, s, s1) && AtOrBelow(o.path, cfg.target)
    requires PlaceObj(RemovePrev(s1, o.path), o).dst == s1.dst[o.path := o]
    ensures SameOutside(cfg, s, PlaceObj(RemovePrev(s1, o.path), o))
  {
    hide AtOrBelow, RemovePrev;
    var t := PlaceObj(RemovePrev(s1, o.path), o);
    forall p ensures OutsideAt(cfg, s1, t, p) {}
    PlaceActs(s1, o);
    OutsideTrans(cfg, s, s1, t);
  }

  /** Placing the file once its directories are there. */
  lemma PlaceRel(c: Ctx, used: set<string>, src6: OIS, dev6: Tree, J: set<string>, N: set<string>, s: PState,
                 s1: PState, r: string)
    requires State3(c, used, src6, dev6, J, N, s) && r in c.rels && At(c.i.cfg.source, r) in s.src && CtxOK(c)
    requires RelClean(r)
    requires s.src[At(c.i.cfg.source, r)].path == At(c.i.cfg.source, r)
    requires Chained(c, used, s, s1, Dir(At(c.i.cfg.target, r)))
    ensures var o := CopiedObj(c, s1, r, s.src[At(c.i.cfg.source, r)]);
            State3(c, used, src6, dev6, J + {r}, N, PlaceObj(RemovePrev(s1, o.path), o))
  {
    hide Inv, Untouched, Exec, CtxOK, RelClean, DirFor, InScope, RemovePrev, PlaceObj, DeviceForm, BaseOK, ThumbsSeen,
         SameOutside, ChainForm, Readable, ParentReady, CopyFor, ThumbFor;
    var x := At(c.i.cfg.target, r);
    var o := CopiedObj(c, s1, r, s.src[At(c.i.cfg.source, r)]);
    ReadyToPlace(c, used, s, s1, dev6, J, N, r);
    HostLocal(c, used, s1, r);
    CopyReason(c, r);
    CopyNamed(c, used, s, r);
    PlaceInv(c, used, s1, o);
    var t := PlaceObj(RemovePrev(s1, x), o);
    FileNotDir(c, r);
    DirsAreDirsPlace(c, s1, t, o);
    FormSnoc(c, dev6, J, N, Now(c, s).device, Now(c, s1).device, r, HostFile(Now(c, s1), o.from).value);
    PlaceOutside(c.i.cfg, s, s1, o);
    assert ConfigOK(c.i.cfg) by { CtxConfig(c); }
    ThumbsSeenCopy(c, N, s, t);
  }

  lemma CtxConfig(c: Ctx)
    requires CtxOK(c)
    ensures ConfigOK(c.i.cfg)
  {
  }

  /** makeCopyActions for a local file that the plan has a reason to copy. */
  lemma CopyRel(c: Ctx, used: set<string>, src6: OIS, dev6: Tree, J: set<string>, N: set<string>, s: PState, r: string)
    requires State3(c, used, src6, dev6, J, N, s) && r in c.rels && At(c.i.cfg.source, r) in s.src
    ensures State3(c, used, src6, dev6, J + {r}, N, CopyObject(c.i.cfg, false, s, s.src[At(c.i.cfg.source, r)]))
  {
    assert RelAt(c, r) && LocalObject(c.i.src, c.w0.local, At(c.i.cfg.source, r));
    CopyRelClean(c, used, src6, dev6, J, N, s, r);
  }

  lemma CopyRelClean(c: Ctx, used: set<string>, src6: OIS, dev6: Tree, J: set<string>, N: set<string>, s: PState,
                     r: string)
    requires State3(c, used, src6, dev6, J, N, s) && r in c.rels && At(c.i.cfg.source, r) in s.src
    requires RelClean(r) && s.src[At(c.i.cfg.source, r)].path == At(c.i.cfg.source, r) && ConfigOK(c.i.cfg)
    ensures State3(c, used, src6, dev6, J + {r}, N, CopyObject(c.i.cfg, false, s, s.src[At(c.i.cfg.source, r)]))
  {
    hide RelClean, Chained, CopyObject, Good, Reasons, Objects, DirsAreDirs;
    var target, obj := c.i.cfg.target, s.src[At(c.i.cfg.source, r)];
    RelCleanEnds(target);
    DirPartsLead(target, r);
    CreateDirsInv(c, used, s, r, DirParts(Dir(r)));
    CopyObjectIs(c, s, r, obj);
    PlaceRel(c, used, src6, dev6, J, N, s, CreateDirs(s, target, DirParts(Dir(r))), r);
  }

  lemma CopyIfFoundInv(c: Ctx, used: set<string>, src6: OIS, dev6: Tree, J: set<string>, N: set<string>, s: PState,
                       p: string)
    requires State3(c, used, src6, dev6, J, N, s)
    requires p in s.src ==> p != "" && Below(p, c.i.cfg.source) && Rel(p, c.i.cfg.source) in c.rels
    ensures State3(c, used, src6, dev6, if p in s.src then J + {Rel(p, c.i.cfg.source)} else J, N,
                   CopyIfFound(c.i.cfg, s, p))
  {
    hide State3, CopyObject;
    if p in s.src {
      AtRel(p, c.i.cfg.source);
      CopyRel(c, used, src6, dev6, J, N, s, Rel(p, c.i.cfg.source));
    }
  }

  // ---------------------------------------------------------------------------------- one thumbnail

  predicate ThumbCopied(cfg: Config, avail: bool, pics: set<string>, obj: Obj) {
    avail && |obj.thumb| > 0 && Join(cfg.thumbDir, obj.thumb) in pics
  }

  lemma JoinThumb(n: string)
    requires CleanPart(n)
    ensures Join(THUMBNAIL_FOLDER, n) == At(THUMBNAIL_FOLDER, n) && Dir(At(THUMBNAIL_FOLDER, n)) == THUMBNAIL_FOLDER
  {
    DirJoin(THUMBNAIL_FOLDER, n);
  }

  lemma ThumbReady(c: Ctx, used: set<string>, s: PState, N: set<string>, n: string)
    requires CtxOK(c) && Copying(c, used, s) && ThumbsSeen(c, N, s) && n in c.names && THUMBNAIL_FOLDER in c.i.dst
    requires Join(c.i.cfg.thumbDir, n) in c.w0.pics
    ensures CleanPart(n) && var to := At(THUMBNAIL_FOLDER, n);
            && ParentReady(c, s, to) && InScope(c.i.cfg, to) && to != ""
               && (to in s.dst ==> !s.dst[to].dir && s.dst[to].path == to)
            && !AtOrBelow(to, c.i.cfg.target)
            && (n !in N && to in s.dst ==> s.dst[to].id < c.i.next)
    ensures Readable(Now(c, s), Join(c.i.cfg.thumbDir, n))
    ensures HostFile(Now(c, s), Join(c.i.cfg.thumbDir, n)) == Lookup(c.w0.pics, Join(c.i.cfg.thumbDir, n))
  {
    var to := At(THUMBNAIL_FOLDER, n);
    assert NameAt(c, n) && ThumbSeen(c, N, s, n);
    JoinThumb(n);
    assert DeviceObjectAt(c.i.cfg, c.i.dst, c.w0.device, THUMBNAIL_FOLDER);
    assert PicAt(c.i.cfg, c.w0.pics, Join(c.i.cfg.thumbDir, n));
    if AtOrBelow(to, c.i.cfg.target) { ScopesApart(c.i.cfg, to); }
    assert SimDevice(c, s, Now(c, s));
  }

  lemma FormThumb(c: Ctx, dev6: Tree, J: set<string>, N: set<string>, dev: Tree, n: string, node: Node)
    requires ConfigOK(c.i.cfg) && DeviceForm(c, dev6, J, N, dev)
    requires Lookup(c.w0.pics, Join(c.i.cfg.thumbDir, n)) == Some(node)
    ensures DeviceForm(c, dev6, J, N + {n}, dev[At(THUMBNAIL_FOLDER, n) := node])
  {
    var to := At(THUMBNAIL_FOLDER, n);
    var e := dev[to := node];
    forall p ensures FormAt(c, dev6, J, N + {n}, e, p) {
      assert FormAt(c, dev6, J, N, dev, p);
      if AtOrBelow(p, c.i.cfg.target) { ScopesApart(c.i.cfg, p); }
      if Below(p, THUMBNAIL_FOLDER) { AtRel(p, THUMBNAIL_FOLDER); }
    }
  }

  ghost function ThumbObj(c: Ctx, s1: PState, n: string): Obj {
    Obj(s1.next, n, "", false, At(THUMBNAIL_FOLDER, n), "", Join(c.i.cfg.thumbDir, n))
  }

  /** The thumbnail round unfolded: the known thumbnail is removed, and the new one put at its path. */
  lemma CopyThumbIs(c: Ctx, avail: bool, N: set<string>, s: PState, obj: Obj)
    requires ThumbsSeen(c, N, s) && ThumbCopied(c.i.cfg, avail, c.i.pics, obj) && obj.thumb in c.names
    requires CleanPart(obj.thumb)
    ensures var n := obj.thumb;
            var to := At(THUMBNAIL_FOLDER, n);
            var s2 := if n in s.thumbs then RemoveDst(s, s.thumbs[n], to) else s;
            CopyThumb(c.i.cfg, avail, c.i.pics, s, obj)
                == PlaceObj(s2, ThumbObj(c, s, n)).(thumbs := s.thumbs[to := ThumbObj(c, s, n)])
  {
    JoinThumb(obj.thumb);
    assert ThumbSeen(c, N, s, obj.thumb);
  }

  lemma NotAName(m: string, n: string)
    requires CleanPart(m)
    ensures m != At(THUMBNAIL_FOLDER, n)
  {
    assert At(THUMBNAIL_FOLDER, n)[|THUMBNAIL_FOLDER|] == '/';
  }

  lemma ThumbsSeenThumb(c: Ctx, N: set<string>, s: PState, t: PState, n: string, o: Obj)
    requires CtxOK(c) && ThumbsSeen(c, N, s) && n in c.names && !o.dir && s.acts <= t.acts
    requires t.dst == s.dst[At(THUMBNAIL_FOLDER, n) := o] && t.thumbs == s.thumbs[At(THUMBNAIL_FOLDER, n) := o]
    requires n in s.thumbs ==> RemovedBefore(t.acts, s.thumbs[n])
    ensures ThumbsSeen(c, N + {n}, t)
  {
    hide WorldOK, ViewsOK, RemovedBefore;
    var to := At(THUMBNAIL_FOLDER, n);
    forall m ensures ThumbSeen(c, N + {n}, t, m) {
      assert ThumbSeen(c, N, s, m) && NameAt(c, m) && ThumbSeen(c, N, s, n);
      if m in c.names {
        if At(THUMBNAIL_FOLDER, m) == to { AtInjective(THUMBNAIL_FOLDER, m, n); }
        NotAName(m, n);
        if m in s.thumbs { RemovedStays(s.acts, t.acts, s.thumbs[m]); }
      }
    }
  }

  lemma CopyThumbInv(c: Ctx, used: set<string>, src6: OIS, dev6: Tree, J: set<string>, N: set<string>, s: PState,
                     avail: bool, obj: Obj)
    requires State3(c, used, src6, dev6, J, N, s) && (avail ==> THUMBNAIL_FOLDER in c.i.dst)
    requires c.i.pics == c.w0.pics.Keys
    requires ThumbCopied(c.i.cfg, avail, c.i.pics, obj) ==> obj.thumb in c.names
    ensures State3(c, used, src6, dev6, J, if ThumbCopied(c.i.cfg, avail, c.i.pics, obj) then N + {obj.thumb} else N,
                   CopyThumb(c.i.cfg, avail, c.i.pics, s, obj))
  {
    if ThumbCopied(c.i.cfg, avail, c.i.pics, obj) {
      ThumbPlaced(c, used, src6, dev6, J, N, s, avail, obj);
    }
  }

  /** The first copy of a thumbnail replaces the enumerated one, or goes to a free path. */
  lemma ThumbFirst(c: Ctx, used: set<string>, s: PState, N: set<string>, n: string)
    requires Copying(c, used, s) && ThumbsSeen(c, N, s) && n in c.names && n !in N && THUMBNAIL_FOLDER in c.i.dst
    requires Join(c.i.cfg.thumbDir, n) in c.w0.pics
    ensures var to, o := At(THUMBNAIL_FOLDER, n), ThumbObj(c, s, n);
            var t := PlaceObj(if n in s.thumbs then RemoveDst(s, s.thumbs[n], to) else s, o);
            && Copying(c, used, t) && t.src == s.src && t.dst == s.dst[to := o] && s.acts <= t.acts
            && (n in s.thumbs ==> RemovedBefore(t.acts, s.thumbs[n]))
            && Now(c, t) == Now(c, s).(device := Now(c, s).device[to := HostFile(Now(c, s), o.from).value])
  {
    hide Untouched, Exec, WorldOK, ViewsOK, Good, Reasons, Objects, ParentReady, Readable, InScope, ThumbFor, HostFile;
    var to, o := At(THUMBNAIL_FOLDER, n), ThumbObj(c, s, n);
    ThumbReady(c, used, s, N, n);
    assert ThumbSeen(c, N, s, n);
    ThumbReason(c, n);
    PlaceInv(c, used, s, o);
    PlaceActs(s, o);
    if n in s.thumbs { RemovedHereNow(s, s.thumbs[n], o); }
  }

  lemma ThumbReason(c: Ctx, n: string)
    requires n in c.names
    ensures ThumbFor(c.i.cfg, c.names, At(THUMBNAIL_FOLDER, n), Join(c.i.cfg.thumbDir, n))
    ensures CtxOK(c) ==> Base(At(THUMBNAIL_FOLDER, n)) == n
  {
    if CtxOK(c) {
      assert NameAt(c, n);
      DirJoin(THUMBNAIL_FOLDER, n);
    }
  }

  lemma RemovedHereNow(s: PState, prev: Obj, o: Obj)
    ensures RemovedBefore(PlaceObj(RemoveDst(s, prev, o.path), o).acts, prev)
    ensures s.acts <= PlaceObj(RemoveDst(s, prev, o.path), o).acts
  {
    assert PlaceObj(RemoveDst(s, prev, o.path), o).acts[|s.acts|] == Action(Dst, Remove, prev);
  }

  lemma SomeRemoval(acts: seq<Action>, o: Obj) returns (m: nat)
    requires RemovedBefore(acts, o)
    ensures m < |acts| && acts[m] == Action(Dst, Remove, o)
  {
    m :| 0 <= m < |acts| && acts[m] == Action(Dst, Remove, o);
  }

  /** What was removed before, and is enumerated, was only ever removed. */
  lemma OnlyRemovedOf(c: Ctx, acts: seq<Action>, o: Obj)
    requires SharesOnlyReplaced(c, acts) && RemovedBefore(acts, o) && o.id < c.i.next
    ensures OnlyRemoved(acts, o)
  {
    hide RemovedBefore;
    var m := SomeRemoval(acts, o);
    forall j ensures RemovedHere(acts, o, j) { assert PairOK(c, acts, j, m) && PairOK(c, acts, m, j); }
  }

  /** Every further copy of a thumbnail leaves the device as it is. */
  lemma ThumbAgain(c: Ctx, used: set<string>, dev6: Tree, J: set<string>, s: PState, N: set<string>, n: string)
    requires Copying(c, used, s) && ThumbsSeen(c, N, s) && n in c.names && n in N && THUMBNAIL_FOLDER in c.i.dst
    requires Join(c.i.cfg.thumbDir, n) in c.w0.pics && DeviceForm(c, dev6, J, N, Now(c, s).device)
    ensures var to, o := At(THUMBNAIL_FOLDER, n), ThumbObj(c, s, n);
            var t := PlaceObj(if n in s.thumbs then RemoveDst(s, s.thumbs[n], to) else s, o);
            && Copying(c, used, t) && t.src == s.src && t.dst == s.dst[to := o] && s.acts <= t.acts
            && (n in s.thumbs ==> RemovedBefore(t.acts, s.thumbs[n]))
            && Now(c, t) == Now(c, s)
            && Lookup(Now(c, s).device, to) == Lookup(c.w0.pics, Join(c.i.cfg.thumbDir, n))
  {
    hide Untouched, Exec, WorldOK, ViewsOK, Good, Reasons, Objects, ParentReady, Readable, InScope, ThumbFor,
         HostFile, RemovedBefore, DirFor;
    var to, o := At(THUMBNAIL_FOLDER, n), ThumbObj(c, s, n);
    ThumbReady(c, used, s, N, n);
    assert ThumbSeen(c, N, s, n);
    assert FormAt(c, dev6, J, N, Now(c, s).device, to);
    PicIsFile(c, s, n);
    ThumbReason(c, n);
    if n in s.thumbs {
      assert SharesOnlyReplaced(c, s.acts) by { SharesOf(c, used, s); }
      OnlyRemovedOf(c, s.acts, s.thumbs[n]);
      InvCopyAgain(c, used, s, s.thumbs[n], o);
      RemovedHereNow(s, s.thumbs[n], o);
    } else {
      InvCopyOver(c, used, s, o);
    }
  }

  lemma PicIsFile(c: Ctx, s: PState, n: string)
    requires CtxOK(c) && Readable(Now(c, s), Join(c.i.cfg.thumbDir, n))
    ensures HostFile(Now(c, s), Join(c.i.cfg.thumbDir, n)).Some?
    ensures HostFile(Now(c, s), Join(c.i.cfg.thumbDir, n)).value.File?
  {
    hide CtxOK;
  }

  lemma SharesOf(c: Ctx, used: set<string>, s: PState)
    requires Objects(c, used, s)
    ensures SharesOnlyReplaced(c, s.acts)
  {
    hide SharesOnlyReplaced;
  }

  lemma ThumbPlaced(c: Ctx, used: set<string>, src6: OIS, dev6: Tree, J: set<string>, N: set<string>, s: PState,
                    avail: bool, obj: Obj)
    requires State3(c, used, src6, dev6, J, N, s) && (avail ==> THUMBNAIL_FOLDER in c.i.dst)
    requires c.i.pics == c.w0.pics.Keys
    requires ThumbCopied(c.i.cfg, avail, c.i.pics, obj) && obj.thumb in c.names
    ensures State3(c, used, src6, dev6, J, N + {obj.thumb}, CopyThumb(c.i.cfg, avail, c.i.pics, s, obj))
  {
    hide Untouched, Exec, WorldOK, ViewsOK, RemoveDst, PlaceObj, DeviceForm, BaseOK, Good, Reasons, Objects,
         CopyThumb, ParentReady, Readable, InScope, RemovedBefore, DirFor, ThumbsSeen;
    var n := obj.thumb;
    var to, o := At(THUMBNAIL_FOLDER, n), ThumbObj(c, s, n);
    ThumbReady(c, used, s, N, n);
    CopyThumbIs(c, avail, N, s, obj);
    CtxConfig(c);
    var t := PlaceObj(if n in s.thumbs then RemoveDst(s, s.thumbs[n], to) else s, o);
    if n in N {
      ThumbAgain(c, used, dev6, J, s, N, n);
      assert N + {n} == N;
    } else {
      ThumbFirst(c, used, s, N, n);
      FormThumb(c, dev6, J, N, Now(c, s).device, n, HostFile(Now(c, s), o.from).value);
    }
    var u := t.(thumbs := s.thumbs[to := o]);
    InvThumbs(c, used, t, u);
    UntouchedThumbs(c, t, u);
    NotADir(c, to);
    DirsAreDirsPlace(c, s, u, o);
    ThumbsSeenThumb(c, N, s, u, n, o);
  }

  lemma NotADir(c: Ctx, p: string)
    requires !AtOrBelow(p, c.i.cfg.target)
    ensures !DirFor(c.i.cfg, c.rels, p)
  {
  }

  lemma UntouchedThumbs(c: Ctx, s: PState, t: PState)
    requires Untouched(c, s) && t.dst == s.dst
    ensures Untouched(c, t)
  {
  }
}
