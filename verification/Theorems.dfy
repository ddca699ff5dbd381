/** The main theorems about one run: addressed by the paths it names it cannot get stuck, its mirrors are exact, and the
    device it leaves does not depend on the order in which Go walks its maps. */
module Theorems {
  import opened InfoSet
  import opened Plan
  import opened FileSystem
  import opened WellFormed
  import opened Invariant
  import opened LocalPhase
  import opened Removals
  import opened Copies
  import opened CopyLoop
  import opened Setting
  import opened Decisions
  import opened Outcomes

  // ---------------------------------------------------------------------------------- the plan runs and predicts

  ghost predicate PredictsAt(os0: OIS, t0: Tree, os: OIS, t: Tree, p: string) {
    && (p in os ==> p in t && os[p].path == p && (os[p].dir <==> t[p].Directory?))
    && (p in t && p !in os ==> p in t0 && p !in os0 && t[p] == t0[p])
    && (p in t0 && p !in os0 ==> p in t && p !in os)
  }

  /** `os` describes `t` where `os0` described `t0`, and what the driver did not enumerate is as it was. */
  ghost predicate Predicts(os0: OIS, t0: Tree, os: OIS, t: Tree) {
    forall p :: PredictsAt(os0, t0, os, t, p)
  }

  /** The plan never gets stuck and the mirrors are exact: from the enumerated trees every action can be done when its
      turn comes, makeRemoveDirActions ends, enumerating the source afterwards gives the local mirror, and the device
      mirror describes the device. */
  lemma PlanRunsAndPredicts(i: Inputs, b: Subsets, s: PState, w: World)
    requires RunOK(i, b, w) && IsPlan(i, b, s)
    ensures var r := Exec(w, s.acts);
            && !r.failed && r.done == |s.acts| && !s.hangs
            && LocalView(s.src, r.world.local)
            && Predicts(i.dst, w.device, s.dst, r.world.device)
  {
    hide IsPlan, RunOK, Ended, SimLocal, SimDevice, LocalView, Predicts, Exec, CtxFor;
    PlanEnds(i, b, s, w);
    EndedSim(i, b, w, s);
    CtxInputs(i, b, w);
    var c, t := CtxFor(i, b, w), Exec(w, s.acts).world;
    PredictsFromSim(c, s, t);
    LocalViewStays(i, b, w, s, t);
  }

  lemma EndedSim(i: Inputs, b: Subsets, w: World, s: PState)
    requires Ended(i, b, w, s)
    ensures var c, r := CtxFor(i, b, w), Exec(w, s.acts);
            !r.failed && !s.hangs && SimLocal(c, s, r.world) && SimDevice(c, s, r.world)
  {
    hide CtxOK, Reasons, Objects, SimLocal, SimDevice, Untouched, DirsAreDirs, ThumbsSeen, BaseOK, DeviceForm,
         LocalInv, RemovedSet, JobRels, JobNames, Row7, ThumbPaths, Exec;
  }

  lemma PredictsFromSim(c: Ctx, s: PState, t: World)
    requires SimDevice(c, s, t)
    ensures Predicts(c.i.dst, c.w0.device, s.dst, t.device)
  {
    forall p ensures PredictsAt(c.i.dst, c.w0.device, s.dst, t.device, p) {}
  }

  lemma LocalViewStays(i: Inputs, b: Subsets, w: World, s: PState, t: World)
    requires RunOK(i, b, w) && SimLocal(CtxFor(i, b, w), s, t)
    ensures LocalView(s.src, t.local)
  {
    hide WorldOK, IsSubsets, RemovedSet, JobRels, JobNames, Row7, ThumbPaths, DeviceView, HistoryView, OwnObjects,
         NoRawKeys;
    forall p ensures LocalObject(s.src, t.local, p) { assert LocalObject(i.src, w.local, p); }
  }

  // ---------------------------------------------------------------------------------- order

  lemma SubsetsSame(i: Inputs, b1: Subsets, b2: Subsets, w: World)
    requires RunOK(i, b1, w) && RunOK(i, b2, w)
    ensures b1.thumbs == b2.thumbs && CtxFor(i, b1, w) == CtxFor(i, b2, w)
    ensures Device6Tree(i, b1, w) == Device6Tree(i, b2, w)
  {
    hide WorldOK, ViewsOK, RemovedSet, JobRels, JobNames, Row7, Row6, Row3, ThumbPaths, ThumbFilter;
    if i.ThumbsAvailable() {
      ThumbSubset(i, b1, w);
      ThumbSubset(i, b2, w);
    }
  }

  ghost predicate SameCount(x: seq<Action>, y: seq<Action>, actor: Actor, kind: Kind, p: string) {
    Count(x, actor, kind, p) == Count(y, actor, kind, p)
  }

  /** Both plans do the same things to the same paths equally often. */
  ghost predicate SameActions(x: seq<Action>, y: seq<Action>) {
    forall actor, kind, p :: SameCount(x, y, actor, kind, p)
  }

  /** The device after a run is the same for every order of the loops, and so are the paths and kinds of its mirror. */
  lemma DeviceIndependentOfOrder(i: Inputs, b1: Subsets, s1: PState, b2: Subsets, s2: PState, w: World)
    requires RunOK(i, b1, w) && IsPlan(i, b1, s1) && RunOK(i, b2, w) && IsPlan(i, b2, s2)
    ensures && Exec(w, s1.acts).world.device == Exec(w, s2.acts).world.device
            && s1.dst.Keys == s2.dst.Keys && (forall p :: p in s1.dst && p in s2.dst ==> s1.dst[p].dir == s2.dst[p].dir)
  {
    hide RunOK, IsPlan, Ended, Exec, DeviceForm, LocalInv, RemovedSet, Row7, CtxFor, Device6Tree;
    PlanEnds(i, b1, s1, w);
    PlanEnds(i, b2, s2, w);
    SubsetsSame(i, b1, b2, w);
    EndedDevice(i, b1, w, s1);
    EndedDevice(i, b2, w, s2);
    var c := CtxFor(i, b1, w);
    var d := Exec(w, s1.acts).world.device;
    DeviceFormUnique(c, Device6Tree(i, b1, w), c.rels, c.names, d, Exec(w, s2.acts).world.device);
    PlanRunsAndPredicts(i, b1, s1, w);
    PlanRunsAndPredicts(i, b2, s2, w);
    forall p ensures p in s1.dst <==> p in s2.dst {
      assert PredictsAt(i.dst, w.device, s1.dst, d, p) && PredictsAt(i.dst, w.device, s2.dst, d, p);
    }
    forall p | p in s1.dst && p in s2.dst ensures s1.dst[p].dir == s2.dst[p].dir {
      assert PredictsAt(i.dst, w.device, s1.dst, d, p) && PredictsAt(i.dst, w.device, s2.dst, d, p);
    }
  }

  lemma EndedDevice(i: Inputs, b: Subsets, w: World, s: PState)
    requires Ended(i, b, w, s)
    ensures DeviceForm(CtxFor(i, b, w), Device6Tree(i, b, w), CtxFor(i, b, w).rels, CtxFor(i, b, w).names,
              Exec(w, s.acts).world.device)
    ensures LocalInv(i.src, i.cfg.source, RemovedSet(i.src, i.cfg.source, Row7(i)), s.src)
  {
    hide Inv, Untouched, DirsAreDirs, ThumbsSeen, BaseOK, DeviceForm, LocalInv, RemovedSet, JobRels, JobNames, Row7,
         Row6, ThumbPaths, Device6Tree;
  }

  /** What the device holds at every path after a run: the copied books and page indexes with their contents, the copied
      thumbnails, the directories above them, and otherwise what was there, without the books of row 6, their page
      indexes and the thumbnails recorded for the books of rows 6 and 7. */
  lemma DeviceAfterRun(i: Inputs, b: Subsets, s: PState, w: World, p: string)
    requires RunOK(i, b, w) && IsPlan(i, b, s)
    ensures Lookup(Exec(w, s.acts).world.device, p)
            == Expected(CtxFor(i, b, w), Device6Tree(i, b, w), CtxFor(i, b, w).rels, CtxFor(i, b, w).names, p)
  {
    hide RunOK, IsPlan, Ended, CtxFor, Device6Tree, Exec, Expected, LocalInv, RemovedSet, Row7;
    PlanEnds(i, b, s, w);
    EndedDevice(i, b, w, s);
    assert FormAt(CtxFor(i, b, w), Device6Tree(i, b, w), CtxFor(i, b, w).rels, CtxFor(i, b, w).names,
        Exec(w, s.acts).world.device, p);
  }

  lemma EndedShape(i: Inputs, b: Subsets, w: World, s: PState)
    requires RunOK(i, b, w) && IsPlan(i, b, s)
    ensures SourceShape(i.src, i.cfg.source)
  {
    hide IsPlan, Good, Reasons, Objects, Untouched, DirsAreDirs, ThumbsSeen, BaseOK, DeviceForm, LocalInv, RemovedSet,
         JobRels, JobNames, Row7, Row6, ThumbPaths, Device6Tree;
    PlanEnds(i, b, s, w);
    SourceIsTree(CtxFor(i, b, w));
  }

  lemma LocalTreeSame(i: Inputs, b1: Subsets, b2: Subsets, w: World, s1: PState, s2: PState)
    requires Ended(i, b1, w, s1) && Ended(i, b2, w, s2) && s1.src == s2.src
    ensures Exec(w, s1.acts).world.local == Exec(w, s2.acts).world.local
  {
    hide CtxOK, Reasons, Objects, SimDevice, Untouched, DirsAreDirs, ThumbsSeen, BaseOK, DeviceForm, LocalInv,
         RemovedSet, JobRels, JobNames, Row7, Row6, ThumbPaths, Device6Tree, Exec;
    EndedLocal(i, b1, w, s1);
    EndedLocal(i, b2, w, s2);
  }

  lemma EndedLocal(i: Inputs, b: Subsets, w: World, s: PState)
    requires Ended(i, b, w, s)
    ensures var t := Exec(w, s.acts).world.local;
              t.Keys == s.src.Keys && forall p :: p in t ==> p in w.local && t[p] == w.local[p]
  {
    hide CtxOK, Reasons, Objects, SimDevice, Untouched, DirsAreDirs, ThumbsSeen, BaseOK, DeviceForm, LocalInv,
         RemovedSet, JobRels, JobNames, Row7, Row6, ThumbPaths, Device6Tree, Exec;
    assert SimLocal(CtxFor(i, b, w), s, Now(CtxFor(i, b, w), s));
  }
}
