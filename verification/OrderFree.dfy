/** Two plans do the same things to the same paths exactly when they leave the same source. */
module OrderFree {
  import opened Paths
  import opened InfoSet
  import opened Plan
  import opened FileSystem
  import opened WellFormed
  import opened Invariant
  import opened Removals
  import opened DeviceRemovals
  import opened Copies
  import opened CopyLoop
  import opened Setting
  import opened Decisions
  import opened Outcomes
  import opened Theorems
  import opened Counting
  import opened LocalPhase
  import opened Undecided

  // ---------------------------------------------------------------------------------- removals in the copy loop

  /** How many removals of `p` from the device are planned so far. */
  function RemoveCount(s: PState, p: string): nat { Count(s.acts, Dst, Remove, p) }

  ghost predicate PlainThumb(s: PState, n: string) {
    n in s.thumbs && CleanPart(n) ==> s.thumbs[n].path == At(THUMBNAIL_FOLDER, n) && s.thumbs[n].thumb == ""
  }

  /** Every entry of the mirror and of the thumbnail set has the path that its key says. */
  ghost predicate Keyed3(s: PState) {
    KeyedMirror(s) && forall n :: PlainThumb(s, n)
  }

  /** Nothing is removed from `p`, and the thumbnails stay. */
  ghost predicate KeepsRemovals(s: PState, t: PState, p: string) {
    RemoveCount(t, p) == RemoveCount(s, p) && t.thumbs == s.thumbs && t.src == s.src
        && (KeyedMirror(s) ==> KeyedMirror(t))
  }

  lemma {:induction false} CreateDirsRemoves(s: PState, root: string, parts: seq<string>, p: string)
    ensures KeepsRemovals(s, CreateDirs(s, root, parts), p)
    decreases |parts|
  {
    hide JoinAll, Base;
    var pre := if parts == [] then s else CreateDirs(s, root, parts[..|parts| - 1]);
    var head := if parts == [] then root else JoinAll(root, parts);
    if parts != [] { CreateDirsRemoves(s, root, parts[..|parts| - 1], p); }
    CountSnoc(pre.acts, Action(Dst, MkDir, Obj(pre.next, Base(head), "", true, head, "", "")), Dst, Remove, p);
  }

  lemma RemovePrevRemoves(s: PState, x: string, p: string)
    requires KeyedMirror(s) && p != x
    ensures KeepsRemovals(s, RemovePrev(s, x), p)
  {
    if x in s.dst { CountSnoc(s.acts, Action(Dst, Remove, s.dst[x]), Dst, Remove, p); }
  }

  lemma CopyObjectRemoves(cfg: Config, s: PState, obj: Obj, p: string)
    requires KeyedMirror(s) && p != Dest(cfg, obj)
    ensures KeepsRemovals(s, CopyObject(cfg, false, s, obj), p)
  {
    hide CreateDirs, TrimPrefix, Join, Dir, RemovePrev;
    var parts := DirParts(Dir(TrimPrefix(obj.path, cfg.source + "/")));
    CreateDirsRemoves(s, cfg.target, parts, p);
    var s1 := CreateDirs(s, cfg.target, parts);
    RemovePrevRemoves(s1, Dest(cfg, obj), p);
    var s2 := RemovePrev(s1, Dest(cfg, obj));
    var o := Obj(s2.next, obj.name, obj.pid, false, Dest(cfg, obj), "", obj.path);
    CountSnoc(s2.acts, Action(Dst, Copy, o), Dst, Remove, p);
  }

  lemma CopyIfFoundRemoves(cfg: Config, s: PState, q: string, p: string)
    requires KeyedMirror(s) && (q in s.src ==> p != Dest(cfg, s.src[q]))
    ensures KeepsRemovals(s, CopyIfFound(cfg, s, q), p)
  {
    hide CopyObject, Dest;
    if Find(s.src, q).Some? { CopyObjectRemoves(cfg, s, s.src[q], p); }
  }

  ghost function NewThumbObj(cfg: Config, s: PState, n: string): Obj {
    Obj(s.next, n, "", false, At(THUMBNAIL_FOLDER, n), "", Join(cfg.thumbDir, n))
  }

  /** The thumbnail round when its name is plain. */
  lemma CopyThumbPlain(cfg: Config, avail: bool, pics: set<string>, s: PState, obj: Obj)
    requires ThumbCopied(cfg, avail, pics, obj) && CleanPart(obj.thumb) && PlainThumb(s, obj.thumb)
    ensures var m := obj.thumb;
            var to := At(THUMBNAIL_FOLDER, m);
            var s1 := if m in s.thumbs then RemoveDst(s, s.thumbs[m], to) else s;
            var o := NewThumbObj(cfg, s, m);
            CopyThumb(cfg, avail, pics, s, obj) == PlaceObj(s1, o).(thumbs := s.thumbs[to := o])
  {
    JoinThumb(obj.thumb);
  }

  lemma KeyedThumb(cfg: Config, s: PState, t: PState, m: string, n: string)
    requires Keyed3(s) && CleanPart(n)
    requires t.thumbs == s.thumbs[At(THUMBNAIL_FOLDER, m) := NewThumbObj(cfg, s, m)]
    requires t.dst == s.dst[At(THUMBNAIL_FOLDER, m) := NewThumbObj(cfg, s, m)]
              || t.dst == (s.dst - {At(THUMBNAIL_FOLDER, m)})[At(THUMBNAIL_FOLDER, m) := NewThumbObj(cfg, s, m)]
    ensures Keyed3(t) && (n in t.thumbs <==> n in s.thumbs)
  {
    hide CleanPart;
    NotAName(n, m);
    forall k ensures PlainThumb(t, k) {
      assert PlainThumb(s, k);
      if CleanPart(k) { NotAName(k, m); }
    }
  }

  /** Copying a thumbnail removes the known thumbnail of that name. */
  lemma CopyThumbRemoves(cfg: Config, avail: bool, pics: set<string>, s: PState, obj: Obj, n: string)
    requires Keyed3(s) && CleanPart(n) && (ThumbCopied(cfg, avail, pics, obj) ==> CleanPart(obj.thumb))
    ensures var t, p := CopyThumb(cfg, avail, pics, s, obj), At(THUMBNAIL_FOLDER, n);
            && Keyed3(t) && (n in t.thumbs <==> n in s.thumbs)
            && RemoveCount(t, p)
               == RemoveCount(s, p) + if n in s.thumbs then ThumbCopies(cfg, avail, pics, obj, p) else 0
  {
    hide CleanPart, KeyedMirror, At;
    if ThumbCopied(cfg, avail, pics, obj) {
      var m := obj.thumb;
      assert PlainThumb(s, m);
      CopyThumbPlain(cfg, avail, pics, s, obj);
      hide CopyThumb;
      var p, to := At(THUMBNAIL_FOLDER, n), At(THUMBNAIL_FOLDER, m);
      JoinThumb(m);
      if p == to { AtInjective(THUMBNAIL_FOLDER, n, m); }
      var s1 := if m in s.thumbs then RemoveDst(s, s.thumbs[m], to) else s;
      if m in s.thumbs { CountSnoc(s.acts, Action(Dst, Remove, s.thumbs[m]), Dst, Remove, p); }
      CountSnoc(s1.acts, Action(Dst, Copy, NewThumbObj(cfg, s, m)), Dst, Remove, p);
      KeyedThumb(cfg, s, CopyThumb(cfg, avail, pics, s, obj), m, n);
    }
  }

  /** Neither the book nor its page indexes are copied to `p`, and its thumbnail has a plain name. */
  ghost predicate CopiedElsewhere(i: Inputs, avail: bool, src: OIS, obj: Obj, p: string) {
    && p != Dest(i.cfg, obj)
    && (forall q :: IndexElsewhere(i, src, obj, p, q))
    && (ThumbCopied(i.cfg, avail, i.pics, obj) ==> CleanPart(obj.thumb))
  }

  predicate IndexElsewhere(i: Inputs, src: OIS, obj: Obj, p: string, q: string) {
    q in Supplements(obj.path) && q in src ==> p != Dest(i.cfg, src[q])
  }

  lemma Step3Removes(i: Inputs, avail: bool, s: PState, obj: Obj, n: string)
    requires Keyed3(s) && CleanPart(n) && CopiedElsewhere(i, avail, s.src, obj, At(THUMBNAIL_FOLDER, n))
    ensures var t, p := Step3(i.cfg, avail, false, i.pics, s, obj), At(THUMBNAIL_FOLDER, n);
            && Keyed3(t) && t.src == s.src && (n in t.thumbs <==> n in s.thumbs)
            && RemoveCount(t, p) == RemoveCount(s, p) + if n in s.thumbs then BookCopies(i, avail, s.src, obj, p) else 0
  {
    hide CopyObject, CopyIfFound, CopyThumb, Dest, ThumbCopies, Supplements, CleanPart, PlainThumb, KeyedMirror, At,
         ThumbCopied;
    var p, sup := At(THUMBNAIL_FOLDER, n), Supplements(obj.path);
    var s1 := CopyObject(i.cfg, false, s, obj);
    var s2 := CopyIfFound(i.cfg, s1, sup[0]);
    var s3 := CopyIfFound(i.cfg, s2, sup[1]);
    assert IndexElsewhere(i, s.src, obj, p, sup[0]) && IndexElsewhere(i, s.src, obj, p, sup[1]);
    CopyObjectRemoves(i.cfg, s, obj, p);
    CopyIfFoundRemoves(i.cfg, s1, sup[0], p);
    CopyIfFoundRemoves(i.cfg, s2, sup[1], p);
    KeyedStays(s, s3);
    CopyThumbRemoves(i.cfg, avail, i.pics, s3, obj, n);
    Step3Copies(i, avail, s, obj, p);
  }

  lemma KeyedStays(s: PState, t: PState)
    requires Keyed3(s) && t.thumbs == s.thumbs && KeyedMirror(t)
    ensures Keyed3(t)
  {
    forall n ensures PlainThumb(t, n) { assert PlainThumb(s, n); }
  }

  /** In the copy loop a known thumbnail is removed as often as it is copied, and an unknown one never. */
  lemma {:induction false} Loop3Removes(i: Inputs, avail: bool, s: PState, objs: OIS, order: seq<string>, n: string)
    requires Keyed3(s) && CleanPart(n)
    requires forall k :: k in order ==> k in objs && CopiedElsewhere(i, avail, s.src, objs[k], At(THUMBNAIL_FOLDER, n))
    ensures var t, p := Loop3(i.cfg, avail, false, i.pics, s, objs, order), At(THUMBNAIL_FOLDER, n);
            && Keyed3(t) && t.src == s.src && (n in t.thumbs <==> n in s.thumbs)
            && RemoveCount(t, p) - RemoveCount(s, p) == if n in s.thumbs then CopyCount(t, p) - CopyCount(s, p) else 0
    decreases |order|
  {
    hide Step3, BookCopies, Keyed3, CleanPart, CopiedElsewhere;
    if order != [] {
      var pre, k := order[..|order| - 1], order[|order| - 1];
      var t := Loop3(i.cfg, avail, false, i.pics, s, objs, pre);
      Loop3Removes(i, avail, s, objs, pre, n);
      Step3Removes(i, avail, t, objs[k], n);
      Step3Copies(i, avail, t, objs[k], At(THUMBNAIL_FOLDER, n));
    }
  }

  // ---------------------------------------------------------------------------------- removals of a plan

  lemma UnderTarget(cfg: Config, obj: Obj, n: string)
    requires ConfigOK(cfg) && Below(obj.path, cfg.source) && Rel(obj.path, cfg.source) != ""
    ensures Dest(cfg, obj) != At(THUMBNAIL_FOLDER, n)
  {
    RelCleanEnds(cfg.target);
    AtRel(obj.path, cfg.source);
    DestAt(cfg, Rel(obj.path, cfg.source), obj);
    ScopesApart(cfg, Dest(cfg, obj));
  }

  lemma LocalEntry(i: Inputs, w: World, p: string)
    requires WorldOK(i.cfg, w) && ViewsOK(i, w) && p in i.src && Below(p, i.cfg.source)
    ensures i.src[p].path == p && p != "" && Rel(p, i.cfg.source) != ""
  {
    assert LocalObject(i.src, w.local, p) && LocalAt(i.cfg, w.local, p);
    RelCleanEnds(Rel(p, i.cfg.source));
  }

  /** A file that goes with a copied book is copied to below the target. */
  lemma VictimElsewhere(i: Inputs, b: Subsets, w: World, src: OIS, k: string, q: string, n: string)
    requires RunOK(i, b, w) && FilesLeft(i, src) && k in Row3(i) && VictimOf(i.cfg.source, k, q) && q in src
    ensures src[q].path == q && Dest(i.cfg, src[q]) != At(THUMBNAIL_FOLDER, n)
  {
    hide WorldOK, ViewsOK, IsSubsets, ConfigOK, LocalBooks, Row3, Row7, Supplements, Dest, Remaining, Below, VictimOf,
         At, LeftAt;
    RunParts(i, b, w);
    Row3Local(i, k);
    LocalVictim(i, w, k, q);
    LocalEntry(i, w, q);
    UnderTarget(i.cfg, src[q], n);
  }

  lemma Row3Elsewhere(i: Inputs, b: Subsets, w: World, src: OIS, k: string, n: string)
    requires RunOK(i, b, w) && FilesLeft(i, src) && k in Row3(i)
    ensures k in LocalBooks(i)
    ensures CopiedElsewhere(i, i.ThumbsAvailable(), src, LocalBooks(i)[k], At(THUMBNAIL_FOLDER, n))
  {
    hide RunOK, WorldOK, ViewsOK, LocalBooks, Row3, Supplements, Dest, FilesLeft, CleanPart, BookKey, At;
    RunParts(i, b, w);
    Row3Entry(i, b, w, src, k);
    var obj, p := LocalBooks(i)[k], At(THUMBNAIL_FOLDER, n);
    VictimElsewhere(i, b, w, src, k, obj.path, n);
    forall q ensures IndexElsewhere(i, src, obj, p, q) {
      if q in Supplements(obj.path) && q in src { VictimElsewhere(i, b, w, src, k, q, n); }
    }
    if obj.thumb != "" { BookThumb(i, w, k); }
  }

  lemma BookThumb(i: Inputs, w: World, k: string)
    requires WorldOK(i.cfg, w) && ViewsOK(i, w) && k in LocalBooks(i) && LocalBooks(i)[k].thumb != ""
    ensures CleanPart(LocalBooks(i)[k].thumb)
  {
    hide LocalBooks;
    LocalBookFacts(i, w, k);
    assert ThumbAt(i.cfg, w.local, w.device, At(i.cfg.source, k));
  }

  lemma {:induction false} OversCopies(w: World, acts: seq<Action>, actor: Actor, p: string)
    ensures Overs(w, acts, actor, p) <= Count(acts, actor, Copy, p)
    decreases |acts|
  {
    hide Exec;
    if acts != [] { OversCopies(w, acts[..|acts| - 1], actor, p); }
  }

  /** What is gone from the device without anything made or copied was removed. */
  lemma OnlyRemovals(c: Ctx, acts: seq<Action>, p: string)
    requires Reasons(c, acts) && !DirFor(c.i.cfg, c.rels, p) && Count(acts, Dst, Copy, p) == 0
    requires !Exec(c.w0, acts).failed && !c.w0.mail
    ensures Count(acts, Dst, Remove, p) == Occupied(c.w0.device, p) - Occupied(Exec(c.w0, acts).world.device, p)
  {
    hide Exec, DirFor, Reasons;
    NoStrayDirs(c, acts, p);
    Conservation(c.w0, acts, Dst, p);
    OversCopies(c.w0, acts, Dst, p);
  }

  /** What the count needs to know of the state before the copies. */
  ghost predicate Removed6(c: Ctx, s6: PState) {
    CtxOK(c) && Reasons(c, s6.acts) && !Exec(c.w0, s6.acts).failed && !c.w0.mail && Keyed3(s6)
  }

  lemma Removed6Is(i: Inputs, b: Subsets, w: World, s7: PState, s6: PState)
    requires RunOK(i, b, w) && Ready7(i, b, w, s7) && Ready6(i, b, w, s7, s6)
    ensures Removed6(CtxFor(i, b, w), s6)
  {
    hide RunOK, Ready7, CtxFor, Device6Tree, Gone6, Reasons, Objects, Untouched, Exec, WorldOK, ViewsOK, NamesOf,
         Row6, Row7;
    var c := CtxFor(i, b, w);
    State6Shrinks(i, b, w, s7, s6);
    CtxInputs(i, b, w);
    assert !w.mail by { NotMail(i, b, w); }
    forall n ensures PlainThumb(s6, n) {
      assert ThumbLive(s6, n);
      if n in s6.thumbs { DeviceNoThumbName(c, Row7(i), s6, At(THUMBNAIL_FOLDER, n)); }
    }
    KeyedOf(c, Row7(i), s6);
  }

  lemma KeyedOf(c: Ctx, used: set<string>, s: PState)
    requires Inv(c, used, s)
    ensures KeyedMirror(s)
  {
    assert SimDevice(c, s, Now(c, s));
  }

  lemma NotMail(i: Inputs, b: Subsets, w: World)
    requires RunOK(i, b, w)
    ensures !w.mail && !i.email
  {
  }

  /** The thumbnail of this name is removed once if the removals of the plan took it from the device, and once more for
      each copy if it was known when the copies began. */
  lemma ThumbRemoves(i: Inputs, b: Subsets, o: Orders, w: World, n: string)
    requires RunOK(i, b, w) && IsOrders(i, b, o) && CleanPart(n)
    ensures var s, p := FinalState(i, b, o), At(THUMBNAIL_FOLDER, n);
            RemoveCount(s, p) == Occupied(w.device, p) - Occupied(Device6Tree(i, b, w), p)
              + if n in b.thumbs - NamesOf(i.hst, Row7(i)) - NamesOf(i.hst, Row6(i)) then CopyCount(s, p) else 0
  {
    hide RunOK, Ready7, Ready6, Objs3, Row3, Row6, Row7, After7, After6, Active7, Active6, IsOrder, FilesLeft,
         LocalBooks, BookCopies, Loop3, CtxFor, Device6Tree, Exec, Occupied, CleanPart, CtxOK, Reasons, Keyed3, At,
         NamesOf, CopiedElsewhere, Case3OK;
    var s7 := After7(i, b, o);
    var s6 := After6(i, b, o, s7);
    var c, p, objs := CtxFor(i, b, w), At(THUMBNAIL_FOLDER, n), Objs3(i, b, s7, s6);
    After6Is(i, b, o, w);
    Removed6Is(i, b, w, s7, s6);
    Now6Is(i, b, w, s7, s6);
    NoCopiesBefore(i, b, o, p);
    CtxInputs(i, b, w);
    NotDirThumb(c, n);
    OnlyRemovals(c, s6.acts, p);
    NotMail(i, b, w);
    Objs3Ready(i, b, o, w, s7, s6);
    forall k | k in o.o3 ensures k in objs && CopiedElsewhere(i, i.ThumbsAvailable(), s6.src, objs[k], p) {
      assert k in Keys(o.o3);
      Row3Elsewhere(i, b, w, s6.src, k, n);
      Row3Entry(i, b, w, s6.src, k);
    }
    Loop3Removes(i, i.ThumbsAvailable(), s6, objs, o.o3, n);
  }

  lemma NotDirThumb(c: Ctx, n: string)
    requires CtxOK(c)
    ensures !DirFor(c.i.cfg, c.rels, At(THUMBNAIL_FOLDER, n))
  {
    CtxConfig(c);
    if DirFor(c.i.cfg, c.rels, At(THUMBNAIL_FOLDER, n)) { ScopesApart(c.i.cfg, At(THUMBNAIL_FOLDER, n)); }
  }

  // ---------------------------------------------------------------------------------- the theorem

  /** Away from the thumbnails of the plan, no file is copied over. */
  lemma NoOversElsewhere(c: Ctx, acts: seq<Action>, p: string)
    requires Reasons(c, acts) && FreshCopies(c, acts)
    requires (Below(p, THUMBNAIL_FOLDER) ==> Rel(p, THUMBNAIL_FOLDER) !in c.names && CtxOK(c))
    ensures Overs(c.w0, acts, Dst, p) == 0
  {
    hide Exec, CtxOK;
    forall n | 0 <= n < |acts| && Is(acts[n], Dst, Copy, p) ensures p !in TreeOf(Exec(c.w0, acts[..n]).world, Dst) {
      assert FreshAt(c, acts, n) && ReasonAt(c, acts, n);
      if Below(p, THUMBNAIL_FOLDER) { CopyNotThumb(c, p, acts[n].obj.from); }
    }
    NoOvers(c.w0, acts, Dst, p);
  }

  lemma CopyNotThumb(c: Ctx, p: string, from: string)
    requires CtxOK(c) && Below(p, THUMBNAIL_FOLDER)
    ensures !CopyFor(c.i.cfg, c.rels, p, from)
  {
    CtxConfig(c);
    if Below(p, c.i.cfg.target) { ScopesApart(c.i.cfg, p); }
  }

  /** Removals from the device, when copies and directories agree. */
  lemma RemovalsAgree(i: Inputs, b1: Subsets, o1: Orders, b2: Subsets, o2: Orders, w: World, p: string)
    requires RunOK(i, b1, w) && IsOrders(i, b1, o1) && RunOK(i, b2, w) && IsOrders(i, b2, o2)
    requires b1.thumbs == b2.thumbs && CtxFor(i, b1, w) == CtxFor(i, b2, w)
    requires Device6Tree(i, b1, w) == Device6Tree(i, b2, w)
    requires var x, y := FinalState(i, b1, o1).acts, FinalState(i, b2, o2).acts;
             && EndedReasons(i, b1, w, FinalState(i, b1, o1)) && EndedReasons(i, b2, w, FinalState(i, b2, o2))
             && Exec(w, x).world.device == Exec(w, y).world.device
             && Count(x, Dst, Copy, p) == Count(y, Dst, Copy, p) && Count(x, Dst, MkDir, p) == Count(y, Dst, MkDir, p)
    ensures Count(FinalState(i, b1, o1).acts, Dst, Remove, p) == Count(FinalState(i, b2, o2).acts, Dst, Remove, p)
  {
    hide RunOK, IsOrders, FinalState, Reasons, FreshCopies, Exec, CtxFor, CtxOK, Device6Tree, Row7, Row6, NamesOf;
    var c, x, y := CtxFor(i, b1, w), FinalState(i, b1, o1).acts, FinalState(i, b2, o2).acts;
    CtxInputs(i, b1, w);
    if Below(p, THUMBNAIL_FOLDER) && Rel(p, THUMBNAIL_FOLDER) in c.names {
      var n := Rel(p, THUMBNAIL_FOLDER);
      AtRel(p, THUMBNAIL_FOLDER);
      assert CleanPart(n) by { NameClean(c, n); }
      ThumbRemoves(i, b1, o1, w, n);
      ThumbRemoves(i, b2, o2, w, n);
    } else {
      NoOversElsewhere(c, x, p);
      NoOversElsewhere(c, y, p);
      Conservation(w, x, Dst, p);
      Conservation(w, y, Dst, p);
    }
  }

  lemma NameClean(c: Ctx, n: string)
    requires CtxOK(c) && n in c.names
    ensures CleanPart(n)
  {
    assert NameAt(c, n);
  }

  lemma MadeAgree(c: Ctx, x: seq<Action>, y: seq<Action>, p: string)
    requires CtxOK(c) && Reasons(c, x) && Reasons(c, y) && !Exec(c.w0, x).failed && !Exec(c.w0, y).failed && !c.w0.mail
    requires Exec(c.w0, x).world.device == Exec(c.w0, y).world.device
    ensures Count(x, Dst, MkDir, p) == Count(y, Dst, MkDir, p)
  {
    hide CtxOK, Reasons, Exec, DirFor;
    if DirFor(c.i.cfg, c.rels, p) {
      DirsOnlyMade(c, x, p);
      DirsOnlyMade(c, y, p);
      OversCopies(c.w0, x, Dst, p);
      OversCopies(c.w0, y, Dst, p);
      Conservation(c.w0, x, Dst, p);
      Conservation(c.w0, y, Dst, p);
    } else {
      NoStrayDirs(c, x, p);
      NoStrayDirs(c, y, p);
    }
  }

  lemma SourceCounts(c: Ctx, x: seq<Action>, p: string)
    requires Reasons(c, x) && !Exec(c.w0, x).failed && !c.w0.mail
    ensures Count(x, Src, MkDir, p) == Count(x, Src, Copy, p) == 0
    ensures Count(x, Src, Remove, p) == Occupied(c.w0.local, p) - Occupied(Exec(c.w0, x).world.local, p)
  {
    hide Reasons, Exec;
    NoSrcMakes(c, x, MkDir, p);
    NoSrcMakes(c, x, Copy, p);
    OversCopies(c.w0, x, Src, p);
    Conservation(c.w0, x, Src, p);
  }

  /** Two plans that leave the same source do the same things to the same paths equally often. */
  lemma SameSourceSameActions(i: Inputs, b1: Subsets, s1: PState, b2: Subsets, s2: PState, w: World)
    requires RunOK(i, b1, w) && IsPlan(i, b1, s1) && RunOK(i, b2, w) && IsPlan(i, b2, s2) && s1.src == s2.src
    ensures SameActions(s1.acts, s2.acts)
  {
    hide RunOK, Ended, IsPlan, IsOrders, FinalState, Row3, PlannedCopies, CtxOK, Reasons, FreshCopies, Exec, CtxFor,
         Device6Tree;
    var o1 := PlanOrders(i, b1, s1);
    var o2 := PlanOrders(i, b2, s2);
    PlanEnds(i, b1, s1, w);
    PlanEnds(i, b2, s2, w);
    EndedHasReasons(i, b1, w, s1);
    EndedHasReasons(i, b2, w, s2);
    DeviceIndependentOfOrder(i, b1, s1, b2, s2, w);
    LocalTreeSame(i, b1, b2, w, s1, s2);
    SubsetsSame(i, b1, b2, w);
    CtxInputs(i, b1, w);
    var c := CtxFor(i, b1, w);
    forall actor, kind, p ensures SameCount(s1.acts, s2.acts, actor, kind, p) {
      SourceCounts(c, s1.acts, p);
      SourceCounts(c, s2.acts, p);
      CopiesPlanned(i, b1, o1, w, p);
      CopiesPlanned(i, b2, o2, w, p);
      SumOrder(o1.o3, o2.o3, k => PlannedCopies(i, p, k));
      assert CopyCount(s1, p) == CopyCount(s2, p);
      MadeAgree(c, s1.acts, s2.acts, p);
      RemovalsAgree(i, b1, o1, b2, o2, w, p);
      SixCounts(s1.acts, s2.acts, actor, kind, p);
    }
  }

  lemma SixCounts(x: seq<Action>, y: seq<Action>, actor: Actor, kind: Kind, p: string)
    requires Count(x, Src, MkDir, p) == Count(y, Src, MkDir, p) && Count(x, Src, Copy, p) == Count(y, Src, Copy, p)
    requires Count(x, Src, Remove, p) == Count(y, Src, Remove, p)
    requires Count(x, Dst, Remove, p) == Count(y, Dst, Remove, p)
    requires Count(x, Dst, MkDir, p) == Count(y, Dst, MkDir, p) && Count(x, Dst, Copy, p) == Count(y, Dst, Copy, p)
    ensures SameCount(x, y, actor, kind, p)
  {
    hide Count;
  }

  lemma SameActionsSameSource(i: Inputs, b1: Subsets, s1: PState, b2: Subsets, s2: PState, w: World)
    requires RunOK(i, b1, w) && IsPlan(i, b1, s1) && RunOK(i, b2, w) && IsPlan(i, b2, s2)
    requires SameActions(s1.acts, s2.acts)
    ensures s1.src == s2.src
  {
    hide RunOK, Ended, IsPlan, CtxOK, Reasons, FreshCopies, Exec, CtxFor, LocalInv, RemovedSet, Row7;
    PlanEnds(i, b1, s1, w);
    PlanEnds(i, b2, s2, w);
    EndedHasReasons(i, b1, w, s1);
    EndedHasReasons(i, b2, w, s2);
    EndedLocal(i, b1, w, s1);
    EndedLocal(i, b2, w, s2);
    CtxInputs(i, b1, w);
    CtxInputs(i, b2, w);
    SourceOf(i, b1, s1, w);
    SourceOf(i, b2, s2, w);
    forall p ensures p in s1.src <==> p in s2.src {
      SourceCounts(CtxFor(i, b1, w), s1.acts, p);
      SourceCounts(CtxFor(i, b2, w), s2.acts, p);
      assert SameCount(s1.acts, s2.acts, Src, Remove, p);
    }
    assert forall p :: p in s1.src ==> s1.src[p] == s2.src[p] by { SubMaps(i, s1.src, s2.src); }
  }

  lemma SubMaps(i: Inputs, x: OIS, y: OIS)
    requires LocalInv(i.src, i.cfg.source, RemovedSet(i.src, i.cfg.source, Row7(i)), x)
    requires LocalInv(i.src, i.cfg.source, RemovedSet(i.src, i.cfg.source, Row7(i)), y)
    ensures forall p :: p in x && p in y ==> x[p] == y[p]
  {
    hide RemovedSet, Row7, DirKept, FileKept, Pending;
  }

  ghost predicate SamePlans(i: Inputs, b: Subsets, s: PState, t: PState) {
    IsPlan(i, b, s) && IsPlan(i, b, t) ==> SameActions(s.acts, t.acts)
  }

  /** The plan is the same multiset of actions on paths in every order of its loops if and only if no directory is
      undecided. */
  lemma ActionsIndependentOfOrder(i: Inputs, b: Subsets, w: World)
    requires RunOK(i, b, w)
    ensures (forall s, t :: SamePlans(i, b, s, t)) <==> NoneUndecided(i)
  {
    hide RunOK, IsPlan, NoneUndecided, SameActions;
    OutcomeIndependentIff(i, b, w);
    forall s, t ensures SamePlans(i, b, s, t) <==> SameLeft(i, b, s, t) {
      if IsPlan(i, b, s) && IsPlan(i, b, t) {
        if s.src == t.src { SameSourceSameActions(i, b, s, b, t, w); }
        if SameActions(s.acts, t.acts) { SameActionsSameSource(i, b, s, b, t, w); }
      }
    }
  }
}
