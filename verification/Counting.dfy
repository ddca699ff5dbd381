/** Counting actions: how often a plan copies to a path, and which kinds of action it has for a path. */
module Counting {
  import opened Paths
  import opened InfoSet
  import opened Plan
  import opened FileSystem
  import opened WellFormed
  import opened Invariant
  import opened LocalPhase
  import opened Removals
  import opened DeviceRemovals
  import opened Copies
  import opened CopyLoop
  import opened Setting
  import opened Decisions
  import opened Outcomes

  lemma CountSnoc(acts: seq<Action>, a: Action, actor: Actor, kind: Kind, p: string)
    ensures Count(acts + [a], actor, kind, p) == Count(acts, actor, kind, p) + if Is(a, actor, kind, p) then 1 else 0
  {
    assert (acts + [a])[..|acts|] == acts;
  }

  lemma {:induction false} CountZero(acts: seq<Action>, actor: Actor, kind: Kind, p: string)
    requires forall j :: 0 <= j < |acts| ==> !Is(acts[j], actor, kind, p)
    ensures Count(acts, actor, kind, p) == 0
    decreases |acts|
  {
    if acts != [] { CountZero(acts[..|acts| - 1], actor, kind, p); }
  }

  // ---------------------------------------------------------------------------------- copies planned

  /** How many copies to `p` are planned so far. */
  function CopyCount(s: PState, p: string): nat { Count(s.acts, Dst, Copy, p) }

  lemma {:induction false} RemoveDirsCopies(s: PState, dir: string, root: string, p: string)
    ensures CopyCount(RemoveDirs(s, dir, root), p) == CopyCount(s, p)
    decreases |dir|
  {
    if dir != root && (if dir == "" then s.src == map[] else NothingSelected(s.src, dir)) {
      var found := Find(s.src, dir);
      var s1 := if found.Some? then s.(acts := s.acts + [Action(Src, Remove, found.value)], src := Drop(s.src, dir))
          else s;
      if found.Some? { CountSnoc(s.acts, Action(Src, Remove, found.value), Dst, Copy, p); }
      if |Dir(dir)| < |dir| { RemoveDirsCopies(s1, Dir(dir), root, p); }
    }
  }

  lemma RemoveObjectCopies(s: PState, obj: Obj, root: string, p: string)
    ensures CopyCount(RemoveObject(s, obj, root), p) == CopyCount(s, p)
  {
    hide RemoveDirs, Dir;
    CountSnoc(s.acts, Action(Src, Remove, obj), Dst, Copy, p);
    RemoveDirsCopies(RemoveSrc(s, obj), Dir(obj.path), root, p);
  }

  lemma RemoveIfFoundCopies(s: PState, q: string, root: string, p: string)
    ensures CopyCount(RemoveIfFound(s, q, root), p) == CopyCount(s, p)
  {
    hide RemoveObject;
    if Find(s.src, q).Some? { RemoveObjectCopies(s, s.src[q], root, p); }
  }

  lemma RemoveThumbCopies(s: PState, avail: bool, n: string, p: string)
    ensures CopyCount(RemoveThumb(s, avail, n), p) == CopyCount(s, p)
  {
    if n in s.thumbs { CountSnoc(s.acts, Action(Dst, Remove, s.thumbs[n]), Dst, Copy, p); }
  }

  lemma RemoveDstIfFoundCopies(s: PState, q: string, p: string)
    ensures CopyCount(RemoveDstIfFound(s, q), p) == CopyCount(s, p)
  {
    if q in s.dst { CountSnoc(s.acts, Action(Dst, Remove, s.dst[q]), Dst, Copy, p); }
  }

  lemma {:induction false} Loop7Copies(cfg: Config, avail: bool, s: PState, objs: OIS, order: seq<string>, p: string)
    requires forall k :: k in order ==> k in objs
    ensures CopyCount(Loop7(cfg, avail, s, objs, order), p) == CopyCount(s, p)
    decreases |order|
  {
    hide RemoveObject, RemoveIfFound, RemoveThumb, Supplements;
    if order != [] {
      var pre, obj := order[..|order| - 1], objs[order[|order| - 1]];
      var s0, root, sup := Loop7(cfg, avail, s, objs, pre), cfg.source, Supplements(obj.path);
      Loop7Copies(cfg, avail, s, objs, pre, p);
      var s1 := RemoveObject(s0, obj, root);
      var s2 := RemoveIfFound(s1, sup[0], root);
      RemoveObjectCopies(s0, obj, root, p);
      RemoveIfFoundCopies(s1, sup[0], root, p);
      RemoveIfFoundCopies(s2, sup[1], root, p);
      RemoveThumbCopies(RemoveIfFound(s2, sup[1], root), avail, obj.thumb, p);
    }
  }

  lemma Step6Copies(avail: bool, history: OIS, s: PState, key: string, obj: Obj, p: string)
    ensures CopyCount(Step6(avail, history, s, key, obj), p) == CopyCount(s, p)
  {
    hide RemoveDstIfFound, RemoveThumb, Supplements;
    var sup := Supplements(obj.path);
    var s1 := RemoveDst(s, obj, obj.path);
    var s2 := RemoveDstIfFound(s1, sup[0]);
    CountSnoc(s.acts, Action(Dst, Remove, obj), Dst, Copy, p);
    RemoveDstIfFoundCopies(s1, sup[0], p);
    RemoveDstIfFoundCopies(s2, sup[1], p);
    if Find(history, key).Some? { RemoveThumbCopies(RemoveDstIfFound(s2, sup[1]), avail, history[key].thumb, p); }
  }

  lemma {:induction false} Loop6Copies(avail: bool, history: OIS, s: PState, objs: OIS, order: seq<string>, p: string)
    requires forall k :: k in order ==> k in objs
    ensures CopyCount(Loop6(avail, history, s, objs, order), p) == CopyCount(s, p)
    decreases |order|
  {
    hide Step6;
    if order != [] {
      var pre, k := order[..|order| - 1], order[|order| - 1];
      Loop6Copies(avail, history, s, objs, pre, p);
      Step6Copies(avail, history, Loop6(avail, history, s, objs, pre), k, objs[k], p);
    }
  }

  function One(c: bool): nat { if c then 1 else 0 }

  lemma {:induction false} CreateDirsCopies(s: PState, root: string, parts: seq<string>, p: string)
    ensures CopyCount(CreateDirs(s, root, parts), p) == CopyCount(s, p) && CreateDirs(s, root, parts).src == s.src
    decreases |parts|
  {
    hide JoinAll, Base;
    var pre := if parts == [] then s else CreateDirs(s, root, parts[..|parts| - 1]);
    var head := if parts == [] then root else JoinAll(root, parts);
    if parts != [] { CreateDirsCopies(s, root, parts[..|parts| - 1], p); }
    CountSnoc(pre.acts, Action(Dst, MkDir, Obj(pre.next, Base(head), "", true, head, "", "")), Dst, Copy, p);
  }

  /** Where makeCopyActions copies a local object. */
  function Dest(cfg: Config, obj: Obj): string {
    Join(cfg.target, TrimPrefix(obj.path, cfg.source + "/"))
  }

  /** Below the source, the planner's destination of a file is its place under the target. */
  lemma DestAt(cfg: Config, r: string, obj: Obj)
    requires RootPath(cfg.target) && r != "" && obj.path == At(cfg.source, r)
    ensures Dest(cfg, obj) == At(cfg.target, r)
  {
    TrimBelow(obj.path, cfg.source);
  }

  lemma RemovePrevCopies(s: PState, x: string, p: string)
    ensures CopyCount(RemovePrev(s, x), p) == CopyCount(s, p) && RemovePrev(s, x).src == s.src
  {
    if x in s.dst { CountSnoc(s.acts, Action(Dst, Remove, s.dst[x]), Dst, Copy, p); }
  }

  lemma PlaceCopies(s: PState, x: string, name: string, pid: string, from: string, p: string)
    ensures CopyCount(Place(s, x, name, pid, from), p) == CopyCount(s, p) + One(p == x)
    ensures Place(s, x, name, pid, from).src == s.src
  {
    CountSnoc(s.acts, Action(Dst, Copy, Obj(s.next, name, pid, false, x, "", from)), Dst, Copy, p);
  }

  lemma CopyObjectCopies(cfg: Config, s: PState, obj: Obj, p: string)
    ensures var t := CopyObject(cfg, false, s, obj);
              CopyCount(t, p) == CopyCount(s, p) + One(p == Dest(cfg, obj)) && t.src == s.src
  {
    hide CreateDirs, TrimPrefix, Join, Dir, RemovePrev, Place, Count, DirParts;
    var rel, x := TrimPrefix(obj.path, cfg.source + "/"), Dest(cfg, obj);
    var s1 := CreateDirs(s, cfg.target, DirParts(Dir(rel)));
    CreateDirsCopies(s, cfg.target, DirParts(Dir(rel)), p);
    RemovePrevCopies(s1, x, p);
    PlaceCopies(RemovePrev(s1, x), x, obj.name, obj.pid, obj.path, p);
  }

  /** Copies to `p` planned for a page index at `q`. */
  function FoundCopies(cfg: Config, src: OIS, q: string, p: string): nat {
    One(q != "" && q in src && p == Dest(cfg, src[q]))
  }

  lemma CopyIfFoundCopies(cfg: Config, s: PState, q: string, p: string)
    ensures var t := CopyIfFound(cfg, s, q);
              CopyCount(t, p) == CopyCount(s, p) + FoundCopies(cfg, s.src, q, p) && t.src == s.src
  {
    hide CopyObject, Dest;
    if Find(s.src, q).Some? { CopyObjectCopies(cfg, s, s.src[q], p); }
  }

  function ThumbCopies(cfg: Config, avail: bool, pics: set<string>, obj: Obj, p: string): nat {
    One(ThumbCopied(cfg, avail, pics, obj) && p == Join(THUMBNAIL_FOLDER, obj.thumb))
  }

  lemma CopyThumbCopies(cfg: Config, avail: bool, pics: set<string>, s: PState, obj: Obj, p: string)
    ensures var t := CopyThumb(cfg, avail, pics, s, obj);
              CopyCount(t, p) == CopyCount(s, p) + ThumbCopies(cfg, avail, pics, obj, p) && t.src == s.src
  {
    hide Join;
    if ThumbCopied(cfg, avail, pics, obj) {
      var from, to := Join(cfg.thumbDir, obj.thumb), Join(THUMBNAIL_FOLDER, obj.thumb);
      var prev := Find(s.thumbs, obj.thumb);
      if prev.Some? { CountSnoc(s.acts, Action(Dst, Remove, prev.value), Dst, Copy, p); }
      var acts1 := if prev.Some? then s.acts + [Action(Dst, Remove, prev.value)] else s.acts;
      CountSnoc(acts1, Action(Dst, Copy, Obj(s.next, obj.thumb, "", false, to, "", from)), Dst, Copy, p);
    }
  }

  /** Copies to `p` planned for the book `obj`. */
  function BookCopies(i: Inputs, avail: bool, src: OIS, obj: Obj, p: string): nat {
    One(p == Dest(i.cfg, obj)) + FoundCopies(i.cfg, src, Supplements(obj.path)[0], p)
        + FoundCopies(i.cfg, src, Supplements(obj.path)[1], p)
    + ThumbCopies(i.cfg, avail, i.pics, obj, p)
  }

  lemma Step3Copies(i: Inputs, avail: bool, s: PState, obj: Obj, p: string)
    ensures var t := Step3(i.cfg, avail, false, i.pics, s, obj);
              CopyCount(t, p) == CopyCount(s, p) + BookCopies(i, avail, s.src, obj, p) && t.src == s.src
  {
    hide CopyObject, CopyIfFound, CopyThumb, Dest, FoundCopies, ThumbCopies, Supplements;
    var sup := Supplements(obj.path);
    var s1 := CopyObject(i.cfg, false, s, obj);
    var s2 := CopyIfFound(i.cfg, s1, sup[0]);
    var s3 := CopyIfFound(i.cfg, s2, sup[1]);
    CopyObjectCopies(i.cfg, s, obj, p);
    CopyIfFoundCopies(i.cfg, s1, sup[0], p);
    CopyIfFoundCopies(i.cfg, s2, sup[1], p);
    CopyThumbCopies(i.cfg, avail, i.pics, s3, obj, p);
  }

  // ---------------------------------------------------------------------------------- sums over an order

  function Sum(order: seq<string>, f: string -> nat): nat
    decreases |order|
  {
    if order == [] then 0 else Sum(order[..|order| - 1], f) + f(order[|order| - 1])
  }

  lemma {:induction false} SumRemove(order: seq<string>, f: string -> nat, j: nat)
    requires j < |order|
    ensures Sum(order, f) == Sum(order[..j] + order[j + 1..], f) + f(order[j])
    decreases |order|
  {
    var n := |order| - 1;
    if j < n {
      var pre := order[..n];
      SumRemove(pre, f, j);
      var rest := order[..j] + order[j + 1..];
      assert pre[..j] == order[..j];
      assert rest[..|rest| - 1] == pre[..j] + pre[j + 1..];
      assert rest[|rest| - 1] == order[n];
    } else {
      assert order[..j] + order[j + 1..] == order[..n];
    }
  }

  lemma NoKeys(y: seq<string>)
    ensures y == [] <==> Keys(y) == {}
  {
    if y != [] { assert y[0] in Keys(y); }
  }

  /** The sum over a set of keys does not depend on their order. */
  lemma {:induction false} SumOrder(x: seq<string>, y: seq<string>, f: string -> nat)
    requires NoRepeat(x) && NoRepeat(y) && Keys(x) == Keys(y)
    ensures Sum(x, f) == Sum(y, f)
    decreases |x|
  {
    if x == [] {
      NoKeys(y);
    } else {
      var k := x[|x| - 1];
      assert k in Keys(y);
      var j :| 0 <= j < |y| && y[j] == k;
      var rest, pre := y[..j] + y[j + 1..], x[..|x| - 1];
      SumRemove(y, f, j);
      assert NoRepeat(rest);
      KeysSnoc(x);
      assert k !in Keys(pre);
      forall q ensures q in Keys(rest) <==> q in Keys(y) && q != k {
        if q in Keys(y) && q != k {
          var m :| 0 <= m < |y| && y[m] == q;
          assert q == if m < j then rest[m] else rest[m - 1];
        }
      }
      assert Keys(pre) == Keys(rest);
      SumOrder(pre, rest, f);
    }
  }

  lemma {:induction false} SumEqual(order: seq<string>, f: string -> nat, g: string -> nat)
    requires forall k :: k in order ==> f(k) == g(k)
    ensures Sum(order, f) == Sum(order, g)
    decreases |order|
  {
    if order != [] {
      assert order[|order| - 1] in order;
      SumEqual(order[..|order| - 1], f, g);
    }
  }

  lemma {:induction false} Loop3Copies(i: Inputs, avail: bool, s: PState, objs: OIS, order: seq<string>, p: string,
                                       f: string -> nat)
    requires forall k :: k in order ==> k in objs && f(k) == BookCopies(i, avail, s.src, objs[k], p)
    ensures var t := Loop3(i.cfg, avail, false, i.pics, s, objs, order);
              CopyCount(t, p) == CopyCount(s, p) + Sum(order, f) && t.src == s.src
    decreases |order|
  {
    hide Step3, BookCopies;
    if order != [] {
      var pre, k := order[..|order| - 1], order[|order| - 1];
      Loop3Copies(i, avail, s, objs, pre, p, f);
      Step3Copies(i, avail, Loop3(i.cfg, avail, false, i.pics, s, objs, pre), objs[k], p);
    }
  }

  // ---------------------------------------------------------------------------------- the plan

  /** How many copies to `p` the plan makes for the book `k`. */
  ghost function PlannedCopies(i: Inputs, p: string, k: string): nat {
    if k in LocalBooks(i) then BookCopies(i, i.ThumbsAvailable(), Remaining(i), LocalBooks(i)[k], p) else 0
  }

  lemma SupplementLeft(i: Inputs, b: Subsets, w: World, src: OIS, k: string, q: string)
    requires RunOK(i, b, w) && FilesLeft(i, src) && k in Row3(i) && VictimOf(i.cfg.source, k, q)
    ensures q in src <==> q in Remaining(i)
    ensures q in src ==> src[q] == Remaining(i)[q]
  {
    hide RunOK, WorldOK, ViewsOK, LocalBooks, Row3, Row7, VictimOf, RemovedSet;
    RunParts(i, b, w);
    RemainingSub(i);
    Row3Local(i, k);
    assert LeftAt(i, src, q);
    if q in i.src { LocalVictim(i, w, k, q); }
  }

  lemma BookCopiesLeft(i: Inputs, b: Subsets, w: World, src: OIS, k: string, p: string)
    requires RunOK(i, b, w) && FilesLeft(i, src) && k in Row3(i)
    ensures k in LocalBooks(i) && BookCopies(i, i.ThumbsAvailable(), src, LocalBooks(i)[k], p) == PlannedCopies(i, p, k)
  {
    hide RunOK, LocalBooks, Row3, Row7, Remaining, FilesLeft, Supplements, Dest, ThumbCopies, FoundCopies, BookKey, One;
    Row3Entry(i, b, w, src, k);
    FoundSame(i, b, w, src, k, Supplements(LocalBooks(i)[k].path)[0], p);
    FoundSame(i, b, w, src, k, Supplements(LocalBooks(i)[k].path)[1], p);
  }

  lemma FoundSame(i: Inputs, b: Subsets, w: World, src: OIS, k: string, q: string, p: string)
    requires RunOK(i, b, w) && FilesLeft(i, src) && k in Row3(i) && VictimOf(i.cfg.source, k, q)
    ensures FoundCopies(i.cfg, src, q, p) == FoundCopies(i.cfg, Remaining(i), q, p)
  {
    hide RunOK, Row3, Remaining, FilesLeft, VictimOf, Dest;
    SupplementLeft(i, b, w, src, k, q);
  }

  lemma NoCopiesBefore(i: Inputs, b: Subsets, o: Orders, p: string)
    requires IsOrders(i, b, o)
    ensures CopyCount(After6(i, b, o, After7(i, b, o)), p) == 0
  {
    hide IsOrder, Objs7, Objs6, Objs3, Loop7, Loop6;
    var s := i.Start(b.thumbs);
    var s7 := After7(i, b, o);
    assert CopyCount(s, p) == 0;
    if Active7(i, b) {
      OrderKeys(o.o7, Objs7(i, b).Keys);
      Loop7Copies(i.cfg, i.ThumbsAvailable(), s, Objs7(i, b), o.o7, p);
    }
    if Active6(i, b, s7) {
      OrderKeys(o.o6, Objs6(i, b, s7).Keys);
      Loop6Copies(i.ThumbsAvailable(), b.history, s7, Objs6(i, b, s7), o.o6, p);
    }
  }

  lemma OrderKeys(o: seq<string>, ks: set<string>)
    requires IsOrder(o, ks)
    ensures NoRepeat(o) && Keys(o) == ks && forall k :: k in o ==> k in ks
  {
  }

  /** The copies to a path are the sum over the books of row 3. */
  lemma CopiesPlanned(i: Inputs, b: Subsets, o: Orders, w: World, p: string)
    requires RunOK(i, b, w) && IsOrders(i, b, o)
    ensures NoRepeat(o.o3) && Keys(o.o3) == Row3(i)
    ensures CopyCount(FinalState(i, b, o), p) == Sum(o.o3, k => PlannedCopies(i, p, k))
  {
    hide RunOK, Ready7, Ready6, Objs3, Row3, Active7, Active6, After7, After6, FilesLeft, LocalBooks, BookCopies,
         PlannedCopies, IsOrder, Loop3;
    var s7 := After7(i, b, o);
    var s6 := After6(i, b, o, s7);
    After6Is(i, b, o, w);
    DeviceMode(i, b, w);
    Objs3Ready(i, b, o, w, s7, s6);
    NoCopiesBefore(i, b, o, p);
    var objs, f := Objs3(i, b, s7, s6), k => PlannedCopies(i, p, k);
    State6Shrinks(i, b, w, s7, s6);
    assert s7.dst.Keys <= i.dst.Keys by { Ready7Keys(i, b, w, s7); }
    forall k | k in o.o3 ensures k in objs && f(k) == BookCopies(i, i.ThumbsAvailable(), s6.src, objs[k], p) {
      assert k in Keys(o.o3);
      Objs3Member(i, b, w, s7, s6, k);
      BookCopiesLeft(i, b, w, s6.src, k, p);
    }
    Loop3Copies(i, i.ThumbsAvailable(), s6, objs, o.o3, p, f);
  }

  // ---------------------------------------------------------------------------------- the other kinds

  ghost predicate EndedReasons(i: Inputs, b: Subsets, w: World, s: PState) {
    var c := CtxFor(i, b, w);
    CtxOK(c) && Reasons(c, s.acts) && FreshCopies(c, s.acts) && !Exec(w, s.acts).failed && !w.mail
  }

  lemma EndedHasReasons(i: Inputs, b: Subsets, w: World, s: PState)
    requires RunOK(i, b, w) && IsPlan(i, b, s)
    ensures EndedReasons(i, b, w, s)
  {
    hide IsPlan, WorldOK, IsSubsets, Objects, Sim, Untouched, DirsAreDirs, ThumbsSeen, BaseOK, DeviceForm, LocalInv,
         RemovedSet, JobRels, JobNames, Row7, ThumbPaths, Exec, Reasons, FreshCopies, Device6Tree;
    PlanEnds(i, b, s, w);
  }

  lemma NoSrcMakes(c: Ctx, acts: seq<Action>, kind: Kind, p: string)
    requires Reasons(c, acts) && !kind.Remove?
    ensures Count(acts, Src, kind, p) == 0
  {
    forall j | 0 <= j < |acts| ensures !Is(acts[j], Src, kind, p) { assert ReasonAt(c, acts, j); }
    CountZero(acts, Src, kind, p);
  }

  lemma NoStrayDirs(c: Ctx, acts: seq<Action>, p: string)
    requires Reasons(c, acts) && !DirFor(c.i.cfg, c.rels, p)
    ensures Count(acts, Dst, MkDir, p) == 0
  {
    forall j | 0 <= j < |acts| ensures !Is(acts[j], Dst, MkDir, p) { assert ReasonAt(c, acts, j); }
    CountZero(acts, Dst, MkDir, p);
  }

  lemma NotCopiedDir(c: Ctx, p: string, from: string)
    requires CtxOK(c) && DirFor(c.i.cfg, c.rels, p)
    ensures !CopyFor(c.i.cfg, c.rels, p, from) && !ThumbFor(c.i.cfg, c.names, p, from)
  {
    CtxConfig(c);
    if CopyFor(c.i.cfg, c.rels, p, from) {
      AtRel(p, c.i.cfg.target);
      FileNotDir(c, Rel(p, c.i.cfg.target));
    }
    ScopesApart(c.i.cfg, p);
  }

  /** A directory of the plan is neither copied to nor removed. */
  lemma DirsOnlyMade(c: Ctx, acts: seq<Action>, p: string)
    requires CtxOK(c) && Reasons(c, acts) && DirFor(c.i.cfg, c.rels, p)
    ensures Count(acts, Dst, Copy, p) == 0 && Count(acts, Dst, Remove, p) == 0
  {
    hide WorldOK, ViewsOK, DirFor, CopyFor, ThumbFor;
    forall j | 0 <= j < |acts| ensures !Is(acts[j], Dst, Copy, p) {
      assert ReasonAt(c, acts, j);
      NotCopiedDir(c, p, acts[j].obj.from);
    }
    CountZero(acts, Dst, Copy, p);
    forall j | 0 <= j < |acts| ensures !Is(acts[j], Dst, Remove, p) {
      assert ReasonAt(c, acts, j);
      if p in c.okDst { VictimNotDir(c, p); }
      if j + 1 < |acts| {
        assert ReasonAt(c, acts, j + 1);
        NotCopiedDir(c, p, acts[j + 1].obj.from);
      }
    }
    CountZero(acts, Dst, Remove, p);
  }

  lemma VictimNotDir(c: Ctx, p: string)
    requires CtxOK(c) && DirFor(c.i.cfg, c.rels, p)
    ensures p !in c.okDst
  {
    assert OkDstAt(c, p) && DeviceObjectAt(c.i.cfg, c.i.dst, c.w0.device, p);
    if p in c.okDst { DirPlace(c, p); }
  }
}
