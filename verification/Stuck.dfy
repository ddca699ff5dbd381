/** The planner makes the target but never the directories above it: when this stops a run. */
module Stuck {
  import opened Paths
  import opened InfoSet
  import opened Plan
  import opened FileSystem
  import opened WellFormed
  import opened Invariant
  import opened DeviceRemovals
  import opened Setting
  import opened Decisions
  import opened Outcomes
  import opened Theorems
  import opened Counting
  import opened Actions
  import opened Mounting
  import opened Binding

  // ---------------------------------------------------------------------------------- the directories above the target

  /** The directories above a path. */
  function Ancestors(t: string): set<string> {
    set n | 0 < n < |t| && t[n] == '/' :: t[..n]
  }

  lemma AncestorIs(t: string, p: string)
    ensures p in Ancestors(t) <==> Below(t, p) && p != ""
  {
    if Below(t, p) && p != "" { assert t[..|p|] == p; }
  }

  /** The tree once the directories above the target are there. */
  function Opened(cfg: Config, d: Tree): Tree {
    d + map p | p in Ancestors(cfg.target) :: Directory
  }

  function OpenedWorld(cfg: Config, w: World): World { w.(device := Opened(cfg, w.device)) }

  /** All hypotheses hold but one: the directories above the target may be missing. */
  ghost predicate AlmostOK(i: Inputs, b: Subsets, w: World) {
    RunOK(i, b, OpenedWorld(i.cfg, w)) && DeviceTree(w.device)
  }

  lemma ScopeNotAbove(cfg: Config, p: string)
    requires ConfigOK(cfg) && InScope(cfg, p)
    ensures p !in Ancestors(cfg.target) && (Below(p, THUMBNAIL_FOLDER) ==> Dir(p) !in Ancestors(cfg.target))
  {
    hide RelClean;
    AncestorIs(cfg.target, p);
    ScopesApart(cfg, cfg.target);
    if Below(cfg.target, p) {
      if Below(p, cfg.target) { BelowAsym(cfg.target, p); }
      if Below(p, THUMBNAIL_FOLDER) { BelowTrans(cfg.target, p, THUMBNAIL_FOLDER); }
    }
    if Below(p, THUMBNAIL_FOLDER) {
      DirOfBelow(p, THUMBNAIL_FOLDER);
      AncestorIs(cfg.target, Dir(p));
      if Below(cfg.target, Dir(p)) && Dir(p) != THUMBNAIL_FOLDER { BelowTrans(cfg.target, Dir(p), THUMBNAIL_FOLDER); }
    }
  }

  /** With the parent of the target there, nothing is missing. */
  lemma NothingMissing(cfg: Config, d: Tree)
    requires DeviceTree(d) && TargetParent(cfg, d) && RelClean(cfg.target)
    ensures Opened(cfg, d) == d
  {
    hide RelClean, DeviceTree, Dir;
    forall p | p in Ancestors(cfg.target) ensures p in d && d[p].Directory? {
      AncestorIs(cfg.target, p);
      DirOfBelow(cfg.target, p);
      if Dir(cfg.target) == "." { DirNotDot(cfg.target, p); }
      if p != Dir(cfg.target) { DeviceAbove(d, Dir(cfg.target), p); }
    }
  }

  lemma DirNotDot(t: string, p: string)
    requires Below(t, p) && p != "" && RelClean(t)
    ensures Dir(t) != "."
  {
    hide RelClean;
    DirOfBelow(t, p);
    RelCleanDir(t);
  }

  /** Without its parent the target itself is missing. */
  lemma TargetMissing(cfg: Config, d: Tree)
    requires DeviceTree(d) && !TargetParent(cfg, d)
    ensures cfg.target !in d && cfg.target !in Opened(cfg, d)
  {
    assert DeviceAt(d, cfg.target);
    AncestorIs(cfg.target, cfg.target);
  }

  // ---------------------------------------------------------------------------------- one action

  /** The actions of a plan, but for the making of the target. */
  predicate Usual(cfg: Config, a: Action) {
    a.actor.Dst? ==>
      && InScope(cfg, a.obj.path) && (a.kind.MkDir? ==> Below(a.obj.path, cfg.target))
      && (a.kind.Copy? ==> Below(a.obj.path, cfg.target) || Below(a.obj.path, THUMBNAIL_FOLDER))
  }

  lemma NothingBelow(cfg: Config, e: Tree, p: string)
    requires DeviceTree(e) && ConfigOK(cfg) && cfg.target !in e && Below(p, cfg.target)
    ensures p !in e && !Free(e, p)
  {
    hide DeviceTree, RelClean;
    RelCleanEnds(cfg.target);
    if p in e { DeviceAbove(e, p, cfg.target); }
    DirOfBelow(p, cfg.target);
    DotNotClean();
    if Dir(p) in e && Dir(p) != cfg.target { DeviceAbove(e, Dir(p), cfg.target); }
  }

  lemma OpenedRemove(cfg: Config, d: Tree, p: string)
    requires ConfigOK(cfg) && InScope(cfg, p) && CanRemove(Opened(cfg, d), p)
    ensures CanRemove(d, p) && Opened(cfg, d) - {p} == Opened(cfg, d - {p})
    ensures HasParent(d - {p}, cfg.target) <==> HasParent(d, cfg.target)
  {
    hide ConfigOK, Dir, InScope, Below;
    ScopeNotAbove(cfg, p);
    TargetDir(cfg, p);
  }

  lemma OpenedCopy(cfg: Config, d: Tree, p: string, n: Option<Node>)
    requires ConfigOK(cfg) && Below(p, THUMBNAIL_FOLDER) && CanCopy(Opened(cfg, d), p, n)
    ensures CanCopy(d, p, n) && Opened(cfg, d)[p := n.value] == Opened(cfg, d[p := n.value])
    ensures HasParent(d[p := n.value], cfg.target) <==> HasParent(d, cfg.target)
  {
    hide ConfigOK, Dir, Below;
    ScopeNotAbove(cfg, p);
    TargetDir(cfg, p);
  }

  /** An action that needs nothing below the target can be done without the directories above it. */
  lemma OpenedStep(cfg: Config, v: World, a: Action)
    requires ConfigOK(cfg) && DeviceTree(Opened(cfg, v.device)) && !v.mail && cfg.target !in Opened(cfg, v.device)
    requires Usual(cfg, a) && CanStep(OpenedWorld(cfg, v), a)
    ensures CanStep(v, a) && Step(OpenedWorld(cfg, v), a) == OpenedWorld(cfg, Step(v, a))
    ensures cfg.target !in Opened(cfg, Step(v, a).device)
    ensures HasParent(Step(v, a).device, cfg.target) <==> HasParent(v.device, cfg.target)
  {
    hide ConfigOK, DeviceTree, InScope, Below, Opened, Free, CanCopy, CanRemove, HasParent;
    if a.actor.Dst? {
      var p, d := a.obj.path, v.device;
      if Below(p, cfg.target) { CannotAdd(cfg, Opened(cfg, d), p, HostFile(v, a.obj.from)); }
      if a.kind.Remove? { OpenedRemove(cfg, d, p); }
      if a.kind.Copy? {
        OpenedCopy(cfg, d, p, HostFile(v, a.obj.from));
        TargetDir(cfg, p);
      }
    }
  }

  lemma CannotAdd(cfg: Config, e: Tree, p: string, n: Option<Node>)
    requires DeviceTree(e) && ConfigOK(cfg) && cfg.target !in e && Below(p, cfg.target)
    ensures !Free(e, p) && !CanCopy(e, p, n)
  {
    hide DeviceTree, ConfigOK, Free, Below;
    NothingBelow(cfg, e, p);
  }

  /** The parent of the target is out of scope. */
  lemma TargetDir(cfg: Config, p: string)
    requires ConfigOK(cfg) && InScope(cfg, p)
    ensures Dir(cfg.target) != p && cfg.target != "" && (Below(p, THUMBNAIL_FOLDER) ==> p != cfg.target)
  {
    hide RelClean;
    RelCleanEnds(cfg.target);
    ScopesApart(cfg, cfg.target);
    if Dir(cfg.target) == p {
      RelCleanDir(cfg.target);
      DotOut(cfg);
    }
  }

  lemma DotOut(cfg: Config)
    requires ConfigOK(cfg)
    ensures !InScope(cfg, ".")
  {
    DotNotClean();
    RelCleanEnds(cfg.target);
  }

  // ---------------------------------------------------------------------------------- a run

  predicate UsualAt(cfg: Config, acts: seq<Action>, j: int) {
    0 <= j < |acts| ==> Usual(cfg, acts[j]) || Is(acts[j], Dst, MkDir, cfg.target)
  }

  lemma PlanUsual(i: Inputs, b: Subsets, s: PState, w: World)
    requires RunOK(i, b, w) && IsPlan(i, b, s)
    ensures forall j :: UsualAt(i.cfg, s.acts, j)
  {
    hide RunOK, Ended, IsPlan, Exec, Reasons, CtxFor, InScope, UsualAt, FreshCopies;
    PlanEnds(i, b, s, w);
    CtxInputs(i, b, w);
    EndedHasReasons(i, b, w, s);
    ScopedActions(i, b, w, s);
    forall j ensures UsualAt(i.cfg, s.acts, j) { ReasonUsual(CtxFor(i, b, w), s.acts, j); }
  }

  lemma ReasonUsual(c: Ctx, acts: seq<Action>, j: int)
    requires Reasons(c, acts) && (0 <= j < |acts| && acts[j].actor.Dst? ==> InScope(c.i.cfg, acts[j].obj.path))
    ensures UsualAt(c.i.cfg, acts, j)
  {
    hide InScope, Below;
    if 0 <= j < |acts| { assert ReasonAt(c, acts, j); }
  }

  /** Up to the making of the target the run is the run with the directories above the target there. */
  lemma {:induction false} OpenedRun(cfg: Config, w: World, acts: seq<Action>, n: nat)
    requires ConfigOK(cfg) && cfg.target !in Opened(cfg, w.device) && CleanRun(OpenedWorld(cfg, w), acts) && n <= |acts|
    requires forall j :: 0 <= j < n ==> Usual(cfg, acts[j])
    ensures var r := Exec(w, acts[..n]);
            && !r.failed && Exec(OpenedWorld(cfg, w), acts[..n]).world == OpenedWorld(cfg, r.world) && !r.world.mail
            && cfg.target !in Opened(cfg, r.world.device)
            && (HasParent(r.world.device, cfg.target) <==> HasParent(w.device, cfg.target))
    decreases n
  {
    hide ConfigOK, Opened, HasParent, Usual, DeviceTree, CanStep, Step;
    assert CleanAt(OpenedWorld(cfg, w), acts, n);
    if n > 0 {
      assert acts[..n][..n - 1] == acts[..n - 1];
      OpenedRun(cfg, w, acts, n - 1);
      assert CleanAt(OpenedWorld(cfg, w), acts, n - 1);
      PlannedStep(OpenedWorld(cfg, w), acts, n - 1);
      OpenedStep(cfg, Exec(w, acts[..n - 1]).world, acts[n - 1]);
    }
  }

  lemma OpenedFacts(i: Inputs, b: Subsets, w: World)
    requires AlmostOK(i, b, w)
    ensures ConfigOK(i.cfg) && RelClean(i.cfg.target) && DeviceTree(w.device)
  {
    hide ViewsOK, RelClean;
  }

  /** The target is made once only, so before that the actions are the usual ones. */
  lemma UsualBefore(cfg: Config, acts: seq<Action>, n: nat, j: nat)
    requires Count(acts, Dst, MkDir, cfg.target) == 1 && j < n < |acts| && Is(acts[n], Dst, MkDir, cfg.target)
    requires UsualAt(cfg, acts, j)
    ensures Usual(cfg, acts[j])
  {
    hide Usual, Count;
    if Is(acts[j], Dst, MkDir, cfg.target) { CountAtLeast(acts, MkDir, cfg.target, j, n); }
  }

  lemma NoneMade(cfg: Config, acts: seq<Action>, j: nat)
    requires Count(acts, Dst, MkDir, cfg.target) == 0 && UsualAt(cfg, acts, j)
    ensures j < |acts| ==> Usual(cfg, acts[j])
  {
    hide Usual, Count;
    if j < |acts| && Is(acts[j], Dst, MkDir, cfg.target) { CountOne(acts, Dst, MkDir, cfg.target, j); }
  }

  lemma StopsAt(cfg: Config, w: World, acts: seq<Action>, n: nat)
    requires ConfigOK(cfg) && cfg.target !in Opened(cfg, w.device) && CleanRun(OpenedWorld(cfg, w), acts)
    requires !TargetParent(cfg, w.device) && Count(acts, Dst, MkDir, cfg.target) == 1
    requires n < |acts| && Is(acts[n], Dst, MkDir, cfg.target) && forall j :: UsualAt(cfg, acts, j)
    ensures Exec(w, acts) == Outcome(Exec(w, acts[..n]).world, n, true)
  {
    hide ConfigOK, Opened, CleanRun, HasParent, Usual, UsualAt, Exec, Count;
    forall j | 0 <= j < n ensures Usual(cfg, acts[j]) { UsualBefore(cfg, acts, n, j); }
    OpenedRun(cfg, w, acts, n);
    NoParent(cfg, Exec(w, acts[..n]).world, acts[n]);
    ExecStops(w, acts, n);
  }

  lemma NoParent(cfg: Config, v: World, a: Action)
    requires Dir(cfg.target) != "." && !HasParent(v.device, cfg.target) && !v.mail && Is(a, Dst, MkDir, cfg.target)
    ensures !CanStep(v, a)
  {
  }

  /** A plan cannot be done to the end exactly when there is a book to copy and the directory that is to hold the target
      is missing; the run then stops where the target is to be made. */
  lemma StuckIff(i: Inputs, b: Subsets, s: PState, w: World)
    requires AlmostOK(i, b, w) && IsPlan(i, b, s)
    ensures var r := Exec(w, s.acts);
            && (r.failed <==> Row3(i) != {} && !TargetParent(i.cfg, w.device))
            && (r.failed ==> r.done < |s.acts| && Is(s.acts[r.done], Dst, MkDir, i.cfg.target))
            && r.world == Exec(w, s.acts[..r.done]).world
  {
    hide RunOK, IsPlan, Exec, Row3, TargetParent, DeviceTree, CleanRun, Opened, CtxFor, DirFor, UsualAt, Count;
    var v := OpenedWorld(i.cfg, w);
    OpenedFacts(i, b, w);
    PlanRunsAndPredicts(i, b, s, v);
    assert s.acts[..|s.acts|] == s.acts;
    if TargetParent(i.cfg, w.device) {
      NothingMissing(i.cfg, w.device);
    } else {
      TargetMissing(i.cfg, w.device);
      PlanCleanRun(i, b, s, v);
      PlanUsual(i, b, s, v);
      DirectoriesMadeOnce(i, b, s, v, i.cfg.target);
      SomeRel(i, b, v);
      if Row3(i) != {} {
        var n := FindOne(s.acts, MkDir, i.cfg.target);
        StopsAt(i.cfg, w, s.acts, n);
      } else {
        forall j | 0 <= j < |s.acts| ensures Usual(i.cfg, s.acts[j]) { NoneMade(i.cfg, s.acts, j); }
        OpenedRun(i.cfg, w, s.acts, |s.acts|);
      }
    }
  }
}
