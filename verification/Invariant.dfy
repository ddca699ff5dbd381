/** What every step of the planner keeps: the actions planned so far run without error, the mirrors describe the
    file systems they lead to, every action has its reason, and objects are not shared between actions. */
module Invariant {
  import opened Paths
  import opened InfoSet
  import opened Plan
  import opened FileSystem
  import opened WellFormed

  /** The setting of one run: what was read, the world it was read from, and the reasons for actions: paths of local
      and device files that may be removed, relative paths and thumbnails that are copied. */
  datatype Ctx = Ctx(i: Inputs, w0: World, okSrc: set<string>, okDst: set<string>, rels: set<string>,
      names: set<string>)

  ghost predicate CtxOK(c: Ctx) {
    && WorldOK(c.i.cfg, c.w0) && ViewsOK(c.i, c.w0)
    && (forall r :: RelAt(c, r)) && (forall n :: NameAt(c, n)) && (forall p :: OkDstAt(c, p))
  }

  ghost predicate RelAt(c: Ctx, r: string) {
    r in c.rels ==> RelClean(r) && At(c.i.cfg.source, r) in c.w0.local && c.w0.local[At(c.i.cfg.source, r)].File?
  }

  ghost predicate NameAt(c: Ctx, n: string) {
    n in c.names ==> CleanPart(n)
  }

  ghost predicate OkDstAt(c: Ctx, p: string) {
    p in c.okDst ==> p in c.w0.device && c.w0.device[p].File? && InScope(c.i.cfg, p)
  }

  ghost function Now(c: Ctx, s: PState): World { Exec(c.w0, s.acts).world }

  // ---------------------------------------------------------------------------------- the mirrors

  ghost predicate SimLocal(c: Ctx, s: PState, w: World) {
    && (forall p :: p in s.src ==> p in c.i.src && s.src[p] == c.i.src[p])
    && w.local.Keys == s.src.Keys
    && (forall p :: p in w.local ==>
       p in c.w0.local && w.local[p] == c.w0.local[p] && (s.src[p].dir <==> w.local[p].Directory?))
  }

  ghost predicate SimDevice(c: Ctx, s: PState, w: World) {
    && (forall p :: p in s.dst ==> p in w.device && s.dst[p].path == p && (s.dst[p].dir <==> w.device[p].Directory?))
    && (forall p :: p in w.device && p !in s.dst ==> p in c.w0.device && p !in c.i.dst && w.device[p] == c.w0.device[p])
    && (forall p :: p in c.w0.device && p !in c.i.dst ==> p in w.device && p !in s.dst)
  }

  ghost predicate Sim(c: Ctx, s: PState, w: World) {
    && SimLocal(c, s, w) && SimDevice(c, s, w)
    && w.pics == c.w0.pics && !w.mail && w.sent == c.w0.sent
  }

  /** Outside the thumbnail folder a copy goes to a free path. */
  ghost predicate FreshAt(c: Ctx, acts: seq<Action>, n: int) {
    0 <= n < |acts| && acts[n].actor.Dst? && acts[n].kind.Copy? && !Below(acts[n].obj.path, THUMBNAIL_FOLDER) ==>
      acts[n].obj.path !in Exec(c.w0, acts[..n]).world.device
  }

  ghost predicate FreshCopies(c: Ctx, acts: seq<Action>) {
    forall n :: FreshAt(c, acts, n)
  }

  ghost predicate Good(c: Ctx, s: PState) {
    !Exec(c.w0, s.acts).failed && FreshCopies(c, s.acts) && Sim(c, s, Now(c, s)) && !s.hangs
  }

  lemma FreshSnoc(c: Ctx, acts: seq<Action>, a: Action)
    requires FreshCopies(c, acts)
    requires a.actor.Dst? && a.kind.Copy? && !Below(a.obj.path, THUMBNAIL_FOLDER) ==>
              a.obj.path !in Exec(c.w0, acts).world.device
    ensures FreshCopies(c, acts + [a])
  {
    hide Exec, Below;
    var t := acts + [a];
    forall n ensures FreshAt(c, t, n) {
      assert FreshAt(c, acts, n);
      if 0 <= n < |acts| { assert t[..n] == acts[..n]; }
      if n == |acts| { assert t[..n] == acts; }
    }
  }

  // ---------------------------------------------------------------------------------- the reasons

  /** `p` is the target or a directory above a copied file. */
  ghost predicate DirFor(cfg: Config, rels: set<string>, p: string) {
    AtOrBelow(p, cfg.target) && exists r :: r in rels && Below(At(cfg.target, r), p)
  }

  /** The book or page index copied to `p`. */
  predicate CopyFor(cfg: Config, rels: set<string>, p: string, from: string) {
    Below(p, cfg.target) && Rel(p, cfg.target) in rels && from == At(cfg.source, Rel(p, cfg.target))
  }

  /** The thumbnail copied to `p`. */
  predicate ThumbFor(cfg: Config, names: set<string>, p: string, from: string) {
    Below(p, THUMBNAIL_FOLDER) && Rel(p, THUMBNAIL_FOLDER) in names
        && from == Join(cfg.thumbDir, Rel(p, THUMBNAIL_FOLDER))
  }

  /** An object that the plan did not make is the enumerated one at its path; in the thumbnail folder only such objects
      are removed. */
  predicate Enumerated(c: Ctx, o: Obj) {
    && (o.id < c.i.next ==> o.path in c.i.dst && o == c.i.dst[o.path])
    && (Below(o.path, THUMBNAIL_FOLDER) ==> o.id < c.i.next)
  }

  /** A created object is new, named by its path, and a directory if it is made and a file if it is copied. */
  predicate CreatedObj(c: Ctx, a: Action) {
    a.obj.id >= c.i.next && a.obj.name == Base(a.obj.path) && (a.obj.dir <==> a.kind.MkDir?)
  }

  ghost predicate ReasonAt(c: Ctx, acts: seq<Action>, j: int)
    requires 0 <= j < |acts|
  {
    var a := acts[j];
    var p := a.obj.path;
    match a.actor
    case Src => a.kind.Remove? && p != c.i.cfg.source && (p in c.okSrc || (p in c.w0.local && c.w0.local[p].Directory?))
    case Dst =>
      match a.kind
      case Remove =>
        && !a.obj.dir && Enumerated(c, a.obj)
        && ((p in c.okDst && a.obj.id < c.i.next) || (j + 1 < |acts| && Is(acts[j + 1], Dst, Copy, p)))
      case MkDir => DirFor(c.i.cfg, c.rels, p) && CreatedObj(c, a)
      case Copy =>
        && (CopyFor(c.i.cfg, c.rels, p, a.obj.from) || ThumbFor(c.i.cfg, c.names, p, a.obj.from))
        && CreatedObj(c, a)
  }

  ghost predicate Reasons(c: Ctx, acts: seq<Action>) {
    forall j :: 0 <= j < |acts| ==> ReasonAt(c, acts, j)
  }

  // ---------------------------------------------------------------------------------- the objects

  /** No action so far uses the object with this identity. */
  ghost predicate Unused(acts: seq<Action>, id: nat) {
    forall j :: 0 <= j < |acts| ==> acts[j].obj.id != id
  }

  predicate Original(c: Ctx, s: PState, p: string)
    requires p in s.dst
  {
    p in c.i.dst && s.dst[p] == c.i.dst[p]
  }

  /** The object at `p` was made by an earlier action of this plan. */
  ghost predicate MadeBy(s: PState, p: string)
    requires p in s.dst
  {
    exists j :: 0 <= j < |s.acts| && s.acts[j] == Action(Dst, if s.dst[p].dir then MkDir else Copy, s.dst[p])
  }

  /** The only action so far that uses the object at `p` is the one that made it. */
  ghost predicate OnlyMade(acts: seq<Action>, o: Obj) {
    forall j :: MadeHere(acts, o, j)
  }

  predicate MadeHere(acts: seq<Action>, o: Obj, j: int) {
    0 <= j < |acts| && acts[j].obj.id == o.id ==> acts[j] == Action(Dst, if o.dir then MkDir else Copy, o)
  }

  ghost predicate NotCopied(acts: seq<Action>, p: string) {
    forall j :: 0 <= j < |acts| ==> !Is(acts[j], Dst, Copy, p)
  }

  /** An action that removes an object of the device. */
  predicate Removes(a: Action) { a.actor.Dst? && a.kind.Remove? }

  /** Two actions share an object only when the first copies it and the second removes it again, or when both remove
      the same thumbnail; an enumerated object is removed before anything is copied to its place. */
  ghost predicate PairOK(c: Ctx, acts: seq<Action>, j: int, k: int) {
    0 <= j < k < |acts| ==>
      && (acts[j].obj.id == acts[k].obj.id ==>
         Removes(acts[k]) && (CopiedBefore(c, acts, j, k) || RemovedTwice(c, acts, j, k)))
      && (Removes(acts[k]) && acts[k].obj.id < c.i.next && Is(acts[j], Dst, Copy, acts[k].obj.path) ==>
         RemovedBefore(acts[..k], acts[k].obj))
  }

  predicate CopiedBefore(c: Ctx, acts: seq<Action>, j: int, k: int)
    requires 0 <= j < k < |acts|
  {
    acts[k].obj.id >= c.i.next && acts[j] == Action(Dst, Copy, acts[k].obj)
  }

  predicate RemovedTwice(c: Ctx, acts: seq<Action>, j: int, k: int)
    requires 0 <= j < k < |acts|
  {
    acts[k].obj.id < c.i.next && acts[j] == acts[k] && Below(acts[k].obj.path, THUMBNAIL_FOLDER)
  }

  ghost predicate RemovedBefore(acts: seq<Action>, o: Obj) {
    exists m :: 0 <= m < |acts| && acts[m] == Action(Dst, Remove, o)
  }

  /** What is removed although the plan made it was copied before. */
  ghost predicate RemovedMade(c: Ctx, acts: seq<Action>, k: int) {
    0 <= k < |acts| && Removes(acts[k]) && acts[k].obj.id >= c.i.next ==>
        exists j :: 0 <= j < k && acts[j] == Action(Dst, Copy, acts[k].obj)
  }

  ghost predicate SharesOnlyReplaced(c: Ctx, acts: seq<Action>) {
    (forall j, k :: PairOK(c, acts, j, k)) && forall k :: RemovedMade(c, acts, k)
  }

  /** The parent of a created object is an enumerated directory or one the plan made before. */
  ghost predicate ParentAt(c: Ctx, s: PState, j: int) {
    0 <= j < |s.acts| && s.acts[j].actor.Dst? && !s.acts[j].kind.Remove? ==>
      s.acts[j].obj.path == c.i.cfg.target || ParentKnown(c, s, Dir(s.acts[j].obj.path), j)
  }

  ghost predicate ParentKnown(c: Ctx, s: PState, d: string, j: int) {
    && d in s.dst && s.dst[d].dir
    && (Original(c, s, d) || exists m :: 0 <= m < j && m < |s.acts| && s.acts[m] == Action(Dst, MkDir, s.dst[d]))
  }

  ghost predicate Parents(c: Ctx, s: PState) {
    forall j :: ParentAt(c, s, j)
  }

  /** Identities are given out in increasing order. */
  ghost predicate OldIds(s: PState) {
    forall j :: 0 <= j < |s.acts| ==> s.acts[j].obj.id < s.next
  }

  ghost predicate HistoryUnused(c: Ctx, used: set<string>, acts: seq<Action>) {
    forall k :: k in c.i.hst && k !in used ==> Unused(acts, c.i.hst[k].id)
  }

  ghost predicate SourceUnused(acts: seq<Action>, src: OIS) {
    forall p :: p in src ==> Unused(acts, src[p].id)
  }

  /** An object of the device mirror is an enumerated one no action uses yet, or one the plan has made. */
  ghost predicate DeviceObject(c: Ctx, s: PState, p: string)
    requires p in s.dst
  {
    if s.dst[p].id < c.i.next then Original(c, s, p) && Unused(s.acts, s.dst[p].id) && NotCopied(s.acts, p)
    else s.dst[p].id < s.next && MadeBy(s, p) && OnlyMade(s.acts, s.dst[p])
  }

  ghost predicate DeviceObjects(c: Ctx, s: PState) {
    forall p :: p in s.dst ==> DeviceObject(c, s, p)
  }

  ghost predicate KeyedMirror(s: PState) {
    forall p :: p in s.dst ==> s.dst[p].path == p
  }

  ghost predicate SubSource(c: Ctx, s: PState) {
    forall p :: p in s.src ==> p in c.i.src && s.src[p] == c.i.src[p]
  }

  /** `used` are the history keys whose objects the plan has used. */
  ghost predicate Objects(c: Ctx, used: set<string>, s: PState) {
    && s.next >= c.i.next && OldIds(s)
    && HistoryUnused(c, used, s.acts) && SourceUnused(s.acts, s.src) && DeviceObjects(c, s)
    && SharesOnlyReplaced(c, s.acts)
  }

  ghost predicate Inv(c: Ctx, used: set<string>, s: PState) {
    && CtxOK(c) && Good(c, s) && Reasons(c, s.acts) && Objects(c, used, s) && Parents(c, s)
  }

  // ---------------------------------------------------------------------------------- start

  lemma InvStart(c: Ctx, thumbs: OIS)
    requires CtxOK(c)
    ensures Inv(c, {}, c.i.Start(thumbs)) && Now(c, c.i.Start(thumbs)) == c.w0
  {
    hide WorldOK, LocalView, DeviceView, HistoryView, OwnObjects, NoRawKeys, Sim, Objects;
    SimStart(c, thumbs);
    ObjectsStart(c, thumbs);
  }

  lemma SimStart(c: Ctx, thumbs: OIS)
    requires LocalView(c.i.src, c.w0.local) && DeviceView(c.i.cfg, c.i.dst, c.w0.device) && !c.i.email && !c.w0.mail
    ensures Sim(c, c.i.Start(thumbs), c.w0)
  {
    hide Base;
    forall p | p in c.i.src ensures c.i.src[p].dir <==> c.w0.local[p].Directory? {
      assert LocalObject(c.i.src, c.w0.local, p);
    }
    forall p | p in c.i.dst ensures Describes(c.i.dst[p], p, c.w0.device[p]) {
      assert DeviceObjectAt(c.i.cfg, c.i.dst, c.w0.device, p);
    }
  }

  lemma ObjectsStart(c: Ctx, thumbs: OIS)
    requires OwnObjects(c.i) && !c.i.email
    ensures Objects(c, {}, c.i.Start(thumbs))
  {
    forall p | p in c.i.dst ensures c.i.dst[p].id < c.i.next {}
  }

  // ---------------------------------------------------------------------------------- appending actions

  lemma ReasonsSnoc(c: Ctx, acts: seq<Action>, a: Action)
    requires Reasons(c, acts) && ReasonAt(c, acts + [a], |acts|)
    ensures Reasons(c, acts + [a])
  {
    var t := acts + [a];
    forall j | 0 <= j < |t| ensures ReasonAt(c, t, j) {
      if j < |acts| { assert t[j] == acts[j] && ReasonAt(c, acts, j); }
    }
  }

  lemma ReasonsReplace(c: Ctx, acts: seq<Action>, a: Action, b: Action)
    requires Reasons(c, acts)
    requires a.actor.Dst? && a.kind.Remove? && !a.obj.dir && Enumerated(c, a.obj) && Is(b, Dst, Copy, a.obj.path)
    requires (CopyFor(c.i.cfg, c.rels, b.obj.path, b.obj.from) || ThumbFor(c.i.cfg, c.names, b.obj.path, b.obj.from))
    requires CreatedObj(c, b)
    ensures Reasons(c, acts + [a] + [b])
  {
    var t := acts + [a] + [b];
    forall j | 0 <= j < |t| ensures ReasonAt(c, t, j) {
      if j < |acts| { assert t[j] == acts[j] && ReasonAt(c, acts, j); }
    }
  }

  lemma NextAbove(c: Ctx, used: set<string>, s: PState)
    requires Objects(c, used, s)
    ensures s.next >= c.i.next
  {
  }

  lemma UnusedSnoc(acts: seq<Action>, a: Action, id: nat)
    requires Unused(acts, id) && a.obj.id != id
    ensures Unused(acts + [a], id)
  {
  }

  /** All that the actions so far do with the object is to remove it. */
  ghost predicate OnlyRemoved(acts: seq<Action>, o: Obj) {
    forall j :: RemovedHere(acts, o, j)
  }

  predicate RemovedHere(acts: seq<Action>, o: Obj, j: int) {
    0 <= j < |acts| && acts[j].obj.id == o.id ==> acts[j] == Action(Dst, Remove, o)
  }

  /** The object of `a` is fresh to the actions so far, or `a` removes a file that the plan copied, or `a` removes a
      thumbnail that was removed before. */
  ghost predicate FreshOrMade(c: Ctx, acts: seq<Action>, a: Action) {
    || (Unused(acts, a.obj.id) && (Removes(a) ==> a.obj.id < c.i.next && NotCopied(acts, a.obj.path)))
    || (Removes(a) && a.obj.id >= c.i.next && !a.obj.dir && OnlyMade(acts, a.obj)
        && exists j :: 0 <= j < |acts| && acts[j] == Action(Dst, Copy, a.obj))
    || (Removes(a) && a.obj.id < c.i.next && OnlyRemoved(acts, a.obj) && RemovedBefore(acts, a.obj)
       && Below(a.obj.path, THUMBNAIL_FOLDER))
  }

  lemma SharesSnoc(c: Ctx, acts: seq<Action>, a: Action)
    requires SharesOnlyReplaced(c, acts) && FreshOrMade(c, acts, a)
    ensures SharesOnlyReplaced(c, acts + [a])
  {
    var t := acts + [a];
    forall j, k ensures PairOK(c, t, j, k) {
      assert PairOK(c, acts, j, k);
      if 0 <= j < k < |acts| { assert t[..k] == acts[..k]; }
      if 0 <= j < k == |acts| {
        assert OnlyMade(acts, a.obj) ==> MadeHere(acts, a.obj, j);
        assert OnlyRemoved(acts, a.obj) ==> RemovedHere(acts, a.obj, j);
        assert t[..k] == acts;
      }
    }
    forall k ensures RemovedMade(c, t, k) {
      assert RemovedMade(c, acts, k);
      if 0 <= k < |acts| && Removes(acts[k]) && acts[k].obj.id >= c.i.next {
        var j :| 0 <= j < k && acts[j] == Action(Dst, Copy, acts[k].obj);
        assert t[j] == acts[j];
      } else if k == |acts| && Removes(a) && a.obj.id >= c.i.next {
        var j :| 0 <= j < |acts| && acts[j] == Action(Dst, Copy, a.obj);
        assert t[j] == acts[j];
      }
    }
  }

  lemma ParentsSnoc(c: Ctx, s: PState, t: PState, a: Action)
    requires Parents(c, s) && t.acts == s.acts + [a]
    requires forall d :: d in s.dst && s.dst[d].dir ==> d in t.dst && t.dst[d] == s.dst[d]
    requires a.actor.Dst? && !a.kind.Remove? ==>
              a.obj.path == c.i.cfg.target || ParentKnown(c, s, Dir(a.obj.path), |s.acts|)
    ensures Parents(c, t)
  {
    forall j ensures ParentAt(c, t, j) {
      assert ParentAt(c, s, j);
      if 0 <= j < |t.acts| && t.acts[j].actor.Dst? && !t.acts[j].kind.Remove? && t.acts[j].obj.path != c.i.cfg.target {
        ParentKept(c, s, t, a, Dir(t.acts[j].obj.path), j);
      }
    }
  }

  lemma ParentKept(c: Ctx, s: PState, t: PState, a: Action, d: string, j: int)
    requires ParentKnown(c, s, d, j) && t.acts == s.acts + [a]
    requires forall d :: d in s.dst && s.dst[d].dir ==> d in t.dst && t.dst[d] == s.dst[d]
    ensures ParentKnown(c, t, d, j)
  {
    if !Original(c, s, d) {
      var m :| 0 <= m < j && m < |s.acts| && s.acts[m] == Action(Dst, MkDir, s.dst[d]);
      assert t.acts[m] == s.acts[m];
    }
  }

  lemma ReadyKnown(c: Ctx, used: set<string>, s: PState, p: string)
    requires Objects(c, used, s) && ParentReady(c, s, p) && p != c.i.cfg.target
    ensures ParentKnown(c, s, Dir(p), |s.acts|)
  {
    var d := Dir(p);
    assert DeviceObject(c, s, d);
  }

  lemma MadeSnoc(s: PState, t: PState, a: Action, p: string)
    requires p in s.dst && p in t.dst && t.dst[p] == s.dst[p] && t.acts == s.acts + [a] && MadeBy(s, p)
    ensures MadeBy(t, p)
  {
    var j :| 0 <= j < |s.acts| && s.acts[j] == Action(Dst, if s.dst[p].dir then MkDir else Copy, s.dst[p]);
    assert t.acts[j] == s.acts[j];
  }

  // ---------------------------------------------------------------------------------- the five primitive steps

  /** Removing a local object that has nothing below it. */
  lemma GoodRemoveSrc(c: Ctx, s: PState, obj: Obj, t: PState)
    requires Good(c, s) && obj.path in s.src && obj.path != ""
    requires s.src[obj.path].dir ==> forall q :: q in s.src ==> !Below(q, obj.path)
    requires t == s.(acts := s.acts + [Action(Src, Remove, obj)], src := Drop(s.src, obj.path))
    ensures Good(c, t) && Now(c, t) == Now(c, s).(local := Now(c, s).local - {obj.path})
  {
    FreshSnoc(c, s.acts, Action(Src, Remove, obj));
    var w, a := Now(c, s), Action(Src, Remove, obj);
    forall q | q in w.local && w.local[obj.path].Directory? ensures !Below(q, obj.path) { assert q in s.src; }
    assert CanStep(w, a);
    ExecSnoc(c.w0, s.acts, a);
  }

  lemma DeviceObjectSnoc(c: Ctx, s: PState, t: PState, a: Action, p: string)
    requires p in s.dst && p in t.dst && t.dst[p] == s.dst[p] && t.acts == s.acts + [a] && s.next <= t.next
    requires DeviceObject(c, s, p) && a.obj.id != s.dst[p].id && !Is(a, Dst, Copy, p)
    ensures DeviceObject(c, t, p)
  {
    if s.dst[p].id < c.i.next {
      UnusedSnoc(s.acts, a, s.dst[p].id);
    } else {
      MadeSnoc(s, t, a, p);
      forall j ensures MadeHere(t.acts, t.dst[p], j) { assert MadeHere(s.acts, s.dst[p], j); }
    }
  }

  /** An action whose object is not one of the remaining enumerated objects keeps the bookkeeping. */
  lemma ObjectsSnoc(c: Ctx, used: set<string>, used': set<string>, s: PState, a: Action, t: PState)
    requires Objects(c, used, s) && used <= used'
    requires t.acts == s.acts + [a] && s.next <= t.next && a.obj.id < t.next
    requires FreshOrMade(c, s.acts, a)
    requires forall k :: k in c.i.hst && k !in used' ==> c.i.hst[k].id != a.obj.id
    requires forall p :: p in t.src ==> p in s.src && t.src[p] == s.src[p] && t.src[p].id != a.obj.id
    requires forall p :: p in t.dst ==> DeviceObject(c, t, p)
    ensures Objects(c, used', t)
  {
    SharesSnoc(c, s.acts, a);
    forall k | k in c.i.hst && k !in used' ensures Unused(t.acts, c.i.hst[k].id) {
      UnusedSnoc(s.acts, a, c.i.hst[k].id);
    }
    forall p | p in t.src ensures Unused(t.acts, t.src[p].id) { UnusedSnoc(s.acts, a, t.src[p].id); }
  }

  lemma ObjectsRemoveSrc(c: Ctx, used: set<string>, used': set<string>, s: PState, obj: Obj, t: PState)
    requires OwnObjects(c.i) && SubSource(c, s) && Objects(c, used, s) && obj.path in s.src && obj.path != ""
    requires used <= used'
    requires obj == s.src[obj.path] || exists k :: k in c.i.hst && k in used' && k !in used && obj == c.i.hst[k]
    requires t == s.(acts := s.acts + [Action(Src, Remove, obj)], src := Drop(s.src, obj.path))
    ensures Objects(c, used', t)
  {
    var a := Action(Src, Remove, obj);
    assert Unused(s.acts, obj.id) && obj.id < c.i.next;
    forall p | p in t.dst ensures DeviceObject(c, t, p) {
      assert DeviceObject(c, s, p);
      DeviceObjectSnoc(c, s, t, a, p);
    }
    ObjectsSnoc(c, used, used', s, a, t);
  }

  /** The invariant after removing a local file or an empty directory. */
  lemma InvRemoveSrc(c: Ctx, used: set<string>, used': set<string>, s: PState, obj: Obj, t: PState)
    requires Inv(c, used, s) && obj.path in s.src && obj.path != "" && used <= used'
    requires s.src[obj.path].dir ==> forall q :: q in s.src ==> !Below(q, obj.path)
    requires (s.src[obj.path].dir || obj.path in c.okSrc) && obj.path != c.i.cfg.source
    requires obj == s.src[obj.path] || exists k :: k in c.i.hst && k in used' && k !in used && obj == c.i.hst[k]
    requires t == s.(acts := s.acts + [Action(Src, Remove, obj)], src := Drop(s.src, obj.path))
    ensures Inv(c, used', t) && Now(c, t) == Now(c, s).(local := Now(c, s).local - {obj.path})
  {
    GoodRemoveSrc(c, s, obj, t);
    assert ReasonAt(c, t.acts, |s.acts|) by { assert t.acts[|s.acts|] == Action(Src, Remove, obj); }
    ReasonsSnoc(c, s.acts, Action(Src, Remove, obj));
    ObjectsRemoveSrc(c, used, used', s, obj, t);
    ParentsSnoc(c, s, t, Action(Src, Remove, obj));
  }

  /** Removing a file of the device. */
  lemma GoodRemoveDst(c: Ctx, s: PState, obj: Obj, t: PState)
    requires CtxOK(c) && Good(c, s) && obj.path != "" && obj.path in s.dst && !s.dst[obj.path].dir
    requires t == RemoveDst(s, obj, obj.path)
    ensures Good(c, t) && Now(c, t) == Now(c, s).(device := Now(c, s).device - {obj.path})
  {
    var w, a := Now(c, s), Action(Dst, Remove, obj);
    FreshSnoc(c, s.acts, a);
    assert CanStep(w, a);
    ExecSnoc(c.w0, s.acts, a);
  }

  /** Different entries of the mirror are different objects. */
  lemma DistinctMirror(c: Ctx, s: PState, p: string, q: string)
    requires OwnObjects(c.i) && KeyedMirror(s) && p in s.dst && q in s.dst && p != q && DeviceObject(c, s, p)
    requires DeviceObject(c, s, q)
    ensures s.dst[p].id != s.dst[q].id
  {
    if s.dst[q].id >= c.i.next && s.dst[p].id >= c.i.next {
      var j :| 0 <= j < |s.acts| && s.acts[j] == Action(Dst, if s.dst[q].dir then MkDir else Copy, s.dst[q]);
      assert MadeHere(s.acts, s.dst[p], j);
    }
  }

  lemma ObjectsRemoveDst(c: Ctx, used: set<string>, s: PState, obj: Obj, t: PState)
    requires OwnObjects(c.i) && SubSource(c, s) && Objects(c, used, s) && KeyedMirror(s)
    requires obj.path != "" && obj.path in s.dst && s.dst[obj.path] == obj && !obj.dir
    requires t == RemoveDst(s, obj, obj.path)
    ensures Objects(c, used, t)
  {
    var a := Action(Dst, Remove, obj);
    assert DeviceObject(c, s, obj.path);
    assert obj.id < s.next;
    forall p | p in t.dst ensures DeviceObject(c, t, p) {
      assert DeviceObject(c, s, p);
      DistinctMirror(c, s, p, obj.path);
      DeviceObjectSnoc(c, s, t, a, p);
    }
    ObjectsSnoc(c, used, used, s, a, t);
  }

  lemma EnumeratedMirror(c: Ctx, used: set<string>, s: PState, p: string)
    requires Objects(c, used, s) && p in s.dst && s.dst[p].path == p
    requires (Below(p, THUMBNAIL_FOLDER) ==> s.dst[p].id < c.i.next)
    ensures Enumerated(c, s.dst[p])
  {
    assert DeviceObject(c, s, p);
  }

  lemma InvRemoveDst(c: Ctx, used: set<string>, s: PState, obj: Obj, t: PState)
    requires Inv(c, used, s) && obj.path != "" && obj.path in s.dst && s.dst[obj.path] == obj && !obj.dir
    requires obj.path in c.okDst && obj.id < c.i.next
    requires t == RemoveDst(s, obj, obj.path)
    ensures Inv(c, used, t) && Now(c, t) == Now(c, s).(device := Now(c, s).device - {obj.path})
  {
    hide WorldOK, ViewsOK, RemoveDst, Objects;
    GoodRemoveDst(c, s, obj, t);
    var a := Action(Dst, Remove, obj);
    assert t.acts == s.acts + [a] && t.dst == s.dst - {obj.path} by { RemoveDstIs(s, obj); }
    assert OwnObjects(c.i) by { CtxOwn(c); }
    EnumeratedMirror(c, used, s, obj.path);
    ReasonsSnoc(c, s.acts, a);
    ObjectsRemoveDst(c, used, s, obj, t);
    ParentsSnoc(c, s, t, a);
  }

  lemma RemoveDstIs(s: PState, obj: Obj)
    requires obj.path != ""
    ensures RemoveDst(s, obj, obj.path) == s.(acts := s.acts + [Action(Dst, Remove, obj)], dst := s.dst - {obj.path})
  {
  }

  lemma CtxOwn(c: Ctx)
    requires CtxOK(c)
    ensures OwnObjects(c.i)
  {
  }

  /** Creating an object on the device at a free path of the managed area. */
  lemma ObjectsMake(c: Ctx, used: set<string>, s: PState, a: Action, t: PState)
    requires OwnObjects(c.i) && SubSource(c, s) && Objects(c, used, s)
    requires a.actor.Dst? && a.obj.id == s.next && a.kind == if a.obj.dir then MkDir else Copy
    requires t == s.(dst := s.dst[a.obj.path := a.obj], acts := s.acts + [a], next := s.next + 1)
    ensures Objects(c, used, t)
  {
    assert Unused(s.acts, s.next);
    forall p | p in t.dst ensures DeviceObject(c, t, p) {
      if p == a.obj.path {
        assert t.acts[|s.acts|] == a;
      } else {
        assert DeviceObject(c, s, p);
        DeviceObjectSnoc(c, s, t, a, p);
      }
    }
    ObjectsSnoc(c, used, used, s, a, t);
  }

  ghost predicate ParentReady(c: Ctx, s: PState, p: string) {
    || (Dir(p) in s.dst && s.dst[Dir(p)].dir)
    || (p == c.i.cfg.target)
  }

  lemma TargetParentOutside(cfg: Config)
    requires ConfigOK(cfg) && Dir(cfg.target) != "."
    ensures !InScope(cfg, Dir(cfg.target))
  {
    var d := Dir(cfg.target);
    RelCleanDir(cfg.target);
    BelowAsym(cfg.target, d);
    if Below(d, THUMBNAIL_FOLDER) { BelowTrans(cfg.target, d, THUMBNAIL_FOLDER); }
  }

  /** The parent of the target is never removed: it is outside the area the plan changes. */
  lemma TargetParentStays(c: Ctx, s: PState, w: World)
    requires CtxOK(c) && SimDevice(c, s, w) && Untouched(c, s)
    ensures TargetParent(c.i.cfg, w.device)
  {
    var d := Dir(c.i.cfg.target);
    if d != "." {
      TargetParentOutside(c.i.cfg);
      assert DeviceObjectAt(c.i.cfg, c.i.dst, c.w0.device, d);
    }
  }

  /** What lies outside the managed area is never touched, nor are directories. */
  ghost predicate Untouched(c: Ctx, s: PState) {
    && (forall p :: p in c.i.dst && !InScope(c.i.cfg, p) ==> p in s.dst && s.dst[p] == c.i.dst[p])
    && (forall p :: p in c.i.dst && c.i.dst[p].dir ==> p in s.dst && s.dst[p] == c.i.dst[p])
  }

  lemma CanMake(c: Ctx, s: PState, w: World, p: string)
    requires CtxOK(c) && SimDevice(c, s, w) && TargetParent(c.i.cfg, w.device)
    requires InScope(c.i.cfg, p) && p !in s.dst && ParentReady(c, s, p)
    ensures Free(w.device, p)
  {
    assert DeviceObjectAt(c.i.cfg, c.i.dst, c.w0.device, p);
  }

  lemma SimMake(c: Ctx, s: PState, w: World, o: Obj, n: Node, t: PState)
    requires Sim(c, s, w) && (o.path in w.device ==> o.path in s.dst)
    requires n.Directory? <==> o.dir
    requires t.src == s.src && t.dst == s.dst[o.path := o]
    ensures Sim(c, t, w.(device := w.device[o.path := n]))
  {
  }

  lemma GoodMake(c: Ctx, s: PState, a: Action, t: PState, n: Node)
    requires CtxOK(c) && Good(c, s) && Untouched(c, s)
    requires a.actor.Dst? && a.kind == if a.obj.dir then MkDir else Copy
    requires InScope(c.i.cfg, a.obj.path) && a.obj.path !in s.dst && ParentReady(c, s, a.obj.path)
    requires if a.obj.dir then n == Directory
             else Readable(Now(c, s), a.obj.from) && n == HostFile(Now(c, s), a.obj.from).value
    requires t == s.(dst := s.dst[a.obj.path := a.obj], acts := s.acts + [a], next := s.next + 1)
    ensures Good(c, t) && Now(c, t) == Now(c, s).(device := Now(c, s).device[a.obj.path := n])
  {
    TargetParentStays(c, s, Now(c, s));
    CanMake(c, s, Now(c, s), a.obj.path);
    SimMake(c, s, Now(c, s), a.obj, n, t);
    FreshSnoc(c, s.acts, a);
    ExecSnoc(c.w0, s.acts, a);
  }

  /** Copying a file over one with the same content changes nothing. */
  lemma StepOver(w: World, o: Obj)
    requires !w.mail && o.path in w.device && w.device[o.path].File? && HostFile(w, o.from) == Some(w.device[o.path])
    ensures CanStep(w, Action(Dst, Copy, o)) && Step(w, Action(Dst, Copy, o)) == w
  {
    hide HostFile, Free;
    assert w.device[o.path := w.device[o.path]] == w.device;
  }

  /** Copying a thumbnail over a file with the same content. */
  lemma GoodOver(c: Ctx, s: PState, o: Obj)
    requires CtxOK(c) && Good(c, s) && Below(o.path, THUMBNAIL_FOLDER) && o.path in s.dst && !o.dir
    requires HostFile(Now(c, s), o.from) == Some(Now(c, s).device[o.path]) && Now(c, s).device[o.path].File?
    ensures Good(c, PlaceObj(s, o)) && Now(c, PlaceObj(s, o)) == Now(c, s)
  {
    hide CtxOK, Exec, FreshCopies, CanStep, Step, HostFile, Below;
    var w, a := Now(c, s), Action(Dst, Copy, o);
    SimMake(c, s, w, o, w.device[o.path], PlaceObj(s, o));
    assert w.device[o.path := w.device[o.path]] == w.device;
    FreshSnoc(c, s.acts, a);
    StepOver(w, o);
    ExecSnoc(c.w0, s.acts, a);
  }

  lemma UntouchedMake(c: Ctx, s: PState, o: Obj, t: PState)
    requires Untouched(c, s) && InScope(c.i.cfg, o.path) && t.dst == s.dst[o.path := o]
    requires o.path in s.dst ==> !s.dst[o.path].dir
    ensures Untouched(c, t)
  {
  }

  lemma UntouchedRemove(c: Ctx, s: PState, obj: Obj, t: PState)
    requires Untouched(c, s) && obj.path in s.dst && !s.dst[obj.path].dir && InScope(c.i.cfg, obj.path)
    requires t.dst == Drop(s.dst, obj.path)
    ensures Untouched(c, t)
  {
  }

  lemma InvMakeDir(c: Ctx, used: set<string>, s: PState, p: string, t: PState)
    requires Inv(c, used, s) && Untouched(c, s)
    requires p !in s.dst && p != "" && ParentReady(c, s, p) && DirFor(c.i.cfg, c.rels, p)
    requires t == EnsureDir(s, p)
    ensures Inv(c, used, t) && Untouched(c, t) && Now(c, t) == Now(c, s).(device := Now(c, s).device[p := Directory])
  {
    hide WorldOK, ViewsOK, Objects, Good, Untouched, ParentReady, Parents, Base;
    var o := Obj(s.next, Base(p), "", true, p, "", "");
    var a := Action(Dst, MkDir, o);
    NextAbove(c, used, s);
    ReasonsSnoc(c, s.acts, a);
    MakeInv(c, used, s, a, t, Directory);
  }

  /** Creating an object with a reason. */
  lemma MakeInv(c: Ctx, used: set<string>, s: PState, a: Action, t: PState, n: Node)
    requires CtxOK(c) && Good(c, s) && Objects(c, used, s) && Parents(c, s) && Untouched(c, s)
    requires a.actor.Dst? && a.obj.id == s.next && a.kind == if a.obj.dir then MkDir else Copy
    requires InScope(c.i.cfg, a.obj.path) && a.obj.path !in s.dst && ParentReady(c, s, a.obj.path)
    requires if a.obj.dir then n == Directory
             else Readable(Now(c, s), a.obj.from) && n == HostFile(Now(c, s), a.obj.from).value
    requires t == s.(dst := s.dst[a.obj.path := a.obj], acts := s.acts + [a], next := s.next + 1)
    requires Reasons(c, t.acts)
    ensures Inv(c, used, t) && Untouched(c, t) && Now(c, t) == Now(c, s).(device := Now(c, s).device[a.obj.path := n])
  {
    hide WorldOK, ViewsOK, Objects, Exec, ParentReady, InScope, SimDevice, Reasons;
    CtxOwn(c);
    GoodMake(c, s, a, t, n);
    ObjectsMake(c, used, s, a, t);
    UntouchedMake(c, s, a.obj, t);
    if a.obj.path != c.i.cfg.target { ReadyKnown(c, used, s, a.obj.path); }
    ParentsSnoc(c, s, t, a);
  }

  function PlaceObj(s: PState, o: Obj): PState {
    s.(dst := s.dst[o.path := o], acts := s.acts + [Action(Dst, Copy, o)], next := s.next + 1)
  }

  /** Copying once the path is free and the reason is settled. */
  lemma InvPlace(c: Ctx, used: set<string>, s: PState, o: Obj)
    requires CtxOK(c) && Good(c, s) && Objects(c, used, s) && Parents(c, s) && Untouched(c, s)
    requires InScope(c.i.cfg, o.path) && o.path !in s.dst && ParentReady(c, s, o.path)
    requires o.id == s.next && !o.dir && Readable(Now(c, s), o.from)
    requires Reasons(c, s.acts + [Action(Dst, Copy, o)])
    ensures Inv(c, used, PlaceObj(s, o)) && Untouched(c, PlaceObj(s, o))
    ensures Now(c, PlaceObj(s, o))
              == Now(c, s).(device := Now(c, s).device[o.path := HostFile(Now(c, s), o.from).value])
  {
    hide Inv, Objects, Good, Parents, Untouched, ParentReady, InScope, CtxOK, Reasons, HostFile;
    MakeInv(c, used, s, Action(Dst, Copy, o), PlaceObj(s, o), HostFile(Now(c, s), o.from).value);
  }

  lemma InvCopyFresh(c: Ctx, used: set<string>, s: PState, o: Obj)
    requires Inv(c, used, s) && Untouched(c, s)
    requires InScope(c.i.cfg, o.path) && o.path !in s.dst && ParentReady(c, s, o.path)
    requires o.id == s.next && !o.dir && Readable(Now(c, s), o.from)
    requires (CopyFor(c.i.cfg, c.rels, o.path, o.from) || ThumbFor(c.i.cfg, c.names, o.path, o.from))
    requires o.name == Base(o.path)
    ensures Inv(c, used, PlaceObj(s, o)) && Untouched(c, PlaceObj(s, o))
    ensures Now(c, PlaceObj(s, o))
              == Now(c, s).(device := Now(c, s).device[o.path := HostFile(Now(c, s), o.from).value])
  {
    ReasonsSnoc(c, s.acts, Action(Dst, Copy, o));
    InvPlace(c, used, s, o);
  }

  /** Removing the file at a path to which a copy will go. */
  lemma MidGood(c: Ctx, s: PState, prev: Obj, from: string, s1: PState)
    requires CtxOK(c) && Good(c, s) && Untouched(c, s) && InScope(c.i.cfg, prev.path) && prev.path != ""
    requires prev.path in s.dst && !s.dst[prev.path].dir && ParentReady(c, s, prev.path)
    requires s1 == RemoveDst(s, prev, prev.path)
    ensures Good(c, s1) && Untouched(c, s1) && ParentReady(c, s1, prev.path) && prev.path !in s1.dst
    ensures Now(c, s1) == Now(c, s).(device := Now(c, s).device - {prev.path})
    ensures HostFile(Now(c, s1), from) == HostFile(Now(c, s), from)
  {
    hide CtxOK, Good, Untouched, Now, InScope, Dir;
    GoodRemoveDst(c, s, prev, s1);
    UntouchedRemove(c, s, prev, s1);
  }

  /** The mirrors are keyed by path and hold what was read. */
  lemma GoodMirror(c: Ctx, s: PState)
    requires CtxOK(c) && Good(c, s)
    ensures OwnObjects(c.i) && SubSource(c, s) && KeyedMirror(s)
  {
    hide FreshCopies, WorldOK, ViewsOK, Exec;
    CtxOwn(c);
  }

  lemma ReplaceMid(c: Ctx, used: set<string>, s: PState, o: Obj, s1: PState)
    requires Inv(c, used, s) && Untouched(c, s)
    requires InScope(c.i.cfg, o.path) && o.path in s.dst && !s.dst[o.path].dir && ParentReady(c, s, o.path)
    requires o.path != ""
    requires s1 == RemoveDst(s, s.dst[o.path], o.path)
    ensures s.dst[o.path].path == o.path
    ensures Good(c, s1) && Objects(c, used, s1) && Parents(c, s1) && Untouched(c, s1) && ParentReady(c, s1, o.path)
    ensures o.path !in s1.dst
    ensures Now(c, s1) == Now(c, s).(device := Now(c, s).device - {o.path})
    ensures HostFile(Now(c, s1), o.from) == HostFile(Now(c, s), o.from)
  {
    hide CtxOK, Good, Untouched, Now, Objects, ParentReady, InScope, Reasons, Parents, HostFile;
    var p := s.dst[o.path];
    GoodMirror(c, s);
    MidGood(c, s, p, o.from, s1);
    ObjectsRemoveDst(c, used, s, p, s1);
    ParentsSnoc(c, s, s1, Action(Dst, Remove, p));
  }

  lemma InvCopyReplace(c: Ctx, used: set<string>, s: PState, o: Obj)
    requires Inv(c, used, s) && Untouched(c, s)
    requires InScope(c.i.cfg, o.path) && o.path in s.dst && !s.dst[o.path].dir && ParentReady(c, s, o.path)
    requires o.path != ""
    requires o.id == s.next && !o.dir && Readable(Now(c, s), o.from)
    requires (Below(o.path, THUMBNAIL_FOLDER) ==> s.dst[o.path].id < c.i.next)
    requires (CopyFor(c.i.cfg, c.rels, o.path, o.from) || ThumbFor(c.i.cfg, c.names, o.path, o.from))
    requires o.name == Base(o.path)
    ensures var t := PlaceObj(RemoveDst(s, s.dst[o.path], o.path), o);
            && Inv(c, used, t) && Untouched(c, t)
            && Now(c, t) == Now(c, s).(device := Now(c, s).device[o.path := HostFile(Now(c, s), o.from).value])
  {
    hide Objects, Good, Untouched, ParentReady, CtxOK, Enumerated, HostFile, InScope, Parents, CopyFor, ThumbFor;
    var s1 := RemoveDst(s, s.dst[o.path], o.path);
    ReplaceMid(c, used, s, o, s1);
    EnumeratedMirror(c, used, s, o.path);
    NextAbove(c, used, s);
    ReasonsReplace(c, s.acts, Action(Dst, Remove, s.dst[o.path]), Action(Dst, Copy, o));
    InvPlace(c, used, s1, o);
    MapReplace(Now(c, s).device, o.path, HostFile(Now(c, s), o.from).value);
  }

  lemma OverReasons(c: Ctx, used: set<string>, s: PState, o: Obj)
    requires Reasons(c, s.acts) && Objects(c, used, s) && o.id == s.next && !o.dir && o.name == Base(o.path)
    requires ThumbFor(c.i.cfg, c.names, o.path, o.from)
    ensures Reasons(c, s.acts + [Action(Dst, Copy, o)])
  {
    hide Objects, Base;
    NextAbove(c, used, s);
    ReasonsSnoc(c, s.acts, Action(Dst, Copy, o));
  }

  lemma OverObjects(c: Ctx, used: set<string>, s: PState, o: Obj)
    requires Inv(c, used, s) && o.id == s.next && !o.dir
    ensures Objects(c, used, PlaceObj(s, o))
  {
    hide WorldOK, ViewsOK, Objects, Exec, SimDevice, FreshCopies, Reasons, Parents;
    CtxOwn(c);
    ObjectsMake(c, used, s, Action(Dst, Copy, o), PlaceObj(s, o));
  }

  lemma OverParents(c: Ctx, used: set<string>, s: PState, o: Obj)
    requires Parents(c, s) && Objects(c, used, s) && o.path in s.dst && !s.dst[o.path].dir && ParentReady(c, s, o.path)
    ensures Parents(c, PlaceObj(s, o))
  {
    hide Objects, ParentReady, Parents, Dir;
    if o.path != c.i.cfg.target { ReadyKnown(c, used, s, o.path); }
    ParentsSnoc(c, s, PlaceObj(s, o), Action(Dst, Copy, o));
  }

  /** Copying a thumbnail once more, over the file that the plan has put there. */
  lemma InvCopyOver(c: Ctx, used: set<string>, s: PState, o: Obj)
    requires Inv(c, used, s) && Untouched(c, s)
    requires Below(o.path, THUMBNAIL_FOLDER) && o.path in s.dst && !s.dst[o.path].dir && ParentReady(c, s, o.path)
    requires o.id == s.next && !o.dir && ThumbFor(c.i.cfg, c.names, o.path, o.from) && o.name == Base(o.path)
    requires HostFile(Now(c, s), o.from) == Some(Now(c, s).device[o.path]) && Now(c, s).device[o.path].File?
    ensures Inv(c, used, PlaceObj(s, o)) && Untouched(c, PlaceObj(s, o)) && Now(c, PlaceObj(s, o)) == Now(c, s)
  {
    hide CtxOK, Objects, Good, Now, ParentReady, HostFile, Parents, Reasons, ThumbFor, Base;
    assert InScope(c.i.cfg, o.path);
    GoodOver(c, s, o);
    OverReasons(c, used, s, o);
    OverObjects(c, used, s, o);
    OverParents(c, used, s, o);
    UntouchedMake(c, s, o, PlaceObj(s, o));
  }

  lemma ObjectsRemoveAgain(c: Ctx, used: set<string>, s: PState, obj: Obj, t: PState)
    requires OwnObjects(c.i) && SubSource(c, s) && Objects(c, used, s) && Enumerated(c, obj) && obj.id < c.i.next
    requires OnlyRemoved(s.acts, obj) && RemovedBefore(s.acts, obj) && Below(obj.path, THUMBNAIL_FOLDER)
    requires t == RemoveDst(s, obj, obj.path)
    ensures Objects(c, used, t)
  {
    var a := Action(Dst, Remove, obj);
    assert obj.path != "" by { assert |obj.path| > 0; }
    forall p | p in t.dst ensures DeviceObject(c, t, p) {
      assert DeviceObject(c, s, p);
      assert p != obj.path;
      DeviceObjectSnoc(c, s, t, a, p);
    }
    ObjectsSnoc(c, used, used, s, a, t);
  }

  lemma AgainMid(c: Ctx, used: set<string>, s: PState, prev: Obj, o: Obj, s1: PState)
    requires Inv(c, used, s) && Untouched(c, s)
    requires Below(o.path, THUMBNAIL_FOLDER) && o.path in s.dst && !s.dst[o.path].dir && ParentReady(c, s, o.path)
    requires Enumerated(c, prev) && prev.id < c.i.next && prev.path == o.path && OnlyRemoved(s.acts, prev)
    requires RemovedBefore(s.acts, prev)
    requires s1 == RemoveDst(s, prev, o.path)
    ensures Good(c, s1) && Objects(c, used, s1) && Parents(c, s1) && Untouched(c, s1) && ParentReady(c, s1, o.path)
    ensures o.path !in s1.dst
    ensures Now(c, s1) == Now(c, s).(device := Now(c, s).device - {o.path})
    ensures HostFile(Now(c, s1), o.from) == HostFile(Now(c, s), o.from)
  {
    hide CtxOK, Good, Untouched, Now, Objects, ParentReady, Reasons, Parents, HostFile, OnlyRemoved, RemovedBefore,
         Enumerated;
    assert o.path != "" by { assert |o.path| > 0; }
    GoodMirror(c, s);
    MidGood(c, s, prev, o.from, s1);
    ObjectsRemoveAgain(c, used, s, prev, s1);
    ParentsSnoc(c, s, s1, Action(Dst, Remove, prev));
  }

  lemma MirrorHas(c: Ctx, s: PState, p: string)
    requires Good(c, s) && p in s.dst
    ensures p in Now(c, s).device
  {
    hide FreshCopies, SimLocal;
  }

  /** Copying a thumbnail once more when the planner removes the enumerated one once more. */
  lemma InvCopyAgain(c: Ctx, used: set<string>, s: PState, prev: Obj, o: Obj)
    requires Inv(c, used, s) && Untouched(c, s)
    requires Below(o.path, THUMBNAIL_FOLDER) && o.path in s.dst && !s.dst[o.path].dir && ParentReady(c, s, o.path)
    requires Enumerated(c, prev) && prev.id < c.i.next && prev.path == o.path && !prev.dir
    requires OnlyRemoved(s.acts, prev) && RemovedBefore(s.acts, prev)
    requires o.id == s.next && !o.dir && ThumbFor(c.i.cfg, c.names, o.path, o.from) && o.name == Base(o.path)
    requires HostFile(Now(c, s), o.from) == Some(Now(c, s).device[o.path]) && Now(c, s).device[o.path].File?
    ensures var t := PlaceObj(RemoveDst(s, prev, o.path), o);
            Inv(c, used, t) && Untouched(c, t) && Now(c, t) == Now(c, s)
  {
    hide Objects, Good, Untouched, ParentReady, CtxOK, Enumerated, HostFile, Parents, ThumbFor, OnlyRemoved,
         RemovedBefore;
    assert o.path in Now(c, s).device by { MirrorHas(c, s, o.path); }
    var s1, n := RemoveDst(s, prev, o.path), HostFile(Now(c, s), o.from).value;
    assert InScope(c.i.cfg, o.path);
    AgainMid(c, used, s, prev, o, s1);
    NextAbove(c, used, s);
    ReasonsReplace(c, s.acts, Action(Dst, Remove, prev), Action(Dst, Copy, o));
    assert Readable(Now(c, s1), o.from);
    InvPlace(c, used, s1, o);
    MapReplace(Now(c, s).device, o.path, n);
    assert Now(c, s).device[o.path := n] == Now(c, s).device;
  }

  lemma MapReplace(d: Tree, p: string, n: Node)
    ensures (d - {p})[p := n] == d[p := n]
  {
  }
}
