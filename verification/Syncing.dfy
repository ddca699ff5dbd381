/** sync/run.go: prepare, do the actions one after the other until one fails, and save the history only after all of
    them.  Each call is one step of the protocol. */
module Syncing {
  import opened InfoSet
  import opened Plan
  import opened FileSystem
  import opened WellFormed
  import opened Setting
  import opened Sharing
  import opened Mounting
  import opened Resumption
  import opened Runs
  import opened ObjectSets
  import opened Planning
  import opened History
  import Binding
  import Once
  import MtpDevice

  /** The host behind the two drivers.  The device is mounted at `mount`; `paths` has the path that each object of the
      plan has once it was used. */
  class Machine {
    const mount: string
    var world: World
    var paths: map<nat, string>

    constructor (mount: string, w: World)
      ensures this.mount == mount && Now() == Host(w, map[])
    {
      this.mount, this.world, this.paths := mount, w, map[];
    }

    function Now(): Host
      reads this
    {
      Host(world, paths)
    }

    /** A run works on objects of its own. */
    method Begin()
      modifies this
      ensures Now() == Host(old(world), map[])
    {
      paths := map[];
    }

    /** An action as makeAction wraps it: a dry run does nothing and succeeds. */
    method Do(a: Action, dryRun: bool) returns (ok: bool)
      modifies this
      ensures ok <==> dryRun || CanDo(mount, old(Now()), a)
      ensures Now() == if dryRun then old(Now()) else DoOne(mount, old(Now()), a)
    {
      hide CanDo, DoOne;
      if dryRun { return true; }
      ok := CanDo(mount, Now(), a);
      var h := DoOne(mount, Now(), a);
      world, paths := h.world, h.paths;
    }
  }

  /** The loop over the actions, which returns at the first error: `n` actions are done. */
  method RunActions(m: Machine, actions: seq<Action>, dryRun: bool) returns (ok: bool, n: nat)
    modifies m
    ensures n <= |actions| && (ok ==> n == |actions|) && (dryRun ==> ok && m.Now() == old(m.Now()))
    ensures !dryRun ==> HostExec(m.mount, old(m.Now()), actions) == HostOutcome(m.Now(), n, !ok)
  {
    hide CanDo, DoOne;
    n := 0;
    while n < |actions|
      invariant n <= |actions| && (dryRun ==> m.Now() == old(m.Now()))
      invariant !dryRun ==> HostExec(m.mount, old(m.Now()), actions[..n]) == HostOutcome(m.Now(), n, false)
    {
      assert actions[..n + 1][..n] == actions[..n];
      ghost var h := m.Now();
      ok := m.Do(actions[n], dryRun);
      if !ok {
        HostStops(m.mount, old(m.Now()), actions, n);
        return false, n;
      }
      n := n + 1;
    }
    assert actions[..n] == actions;
    return true, n;
  }

  datatype Result = NoBooks | ActionFailed | NotSaved | Finished

  /** Everything a run needs of what it reads, whatever subsets its loops happen to build. */
  ghost predicate Fit(i: Inputs, w: World) {
    WorldOK(i.cfg, w) && ViewsOK(i, w)
  }

  /** The state of the protocol: `w` is the world with the device that the host has mounted. */
  ghost function SysOf(w: World, hst: Connection): Sys
    requires hst.Valid()
    reads hst
  {
    Sys(w, Contents(hst.State(), hst.stepID), hst.stepID)
  }

  /** The run reads the state `s` of the protocol. */
  ghost predicate Begins(i: Inputs, s: Sys, b: Subsets, plan: PState) {
    Fit(i, s.world) && SameData(i.hst, s.hst) && IsSubsets(i, b) && IsPlan(i, b, plan) && b.local != map[]
  }

  lemma CutIsNext(i: Inputs, s: Sys, b: Subsets, plan: PState, n: nat, t: Sys)
    requires n <= |plan.acts| && t == s.(world := Exec(s.world, plan.acts[..n]).world)
    ensures Begins(i, s, b, plan) ==> Next(i.cfg, s, Cut(i, b, plan, n), t)
  {
    hide WorldOK, ViewsOK, SameData, IsPlan, IsSubsets, Exec;
  }

  lemma SavedIsNext(i: Inputs, s: Sys, b: Subsets, plan: PState, ois: OIS, t: Sys)
    requires t.world == Exec(s.world, plan.acts).world && t.step > s.step && t.hst == Records(ois)
    requires IsSubsetByPath(plan.src, i.cfg.source, ois) && Saves(s, plan)
    ensures Begins(i, s, b, plan) ==> Next(i.cfg, s, Run(i, b, plan), t)
  {
    hide WorldOK, ViewsOK, IsPlan, IsSubsets, Exec, IsSubsetByPath;
    forall k ensures SameAt(Records(ois), ois, k) {}
    assert SavedFrom(plan.src, i.cfg.source, t.hst);
  }

  lemma UnsavedIsNext(i: Inputs, s: Sys, b: Subsets, plan: PState, t: Sys)
    requires t == s.(world := Exec(s.world, plan.acts).world) && !Saves(s, plan)
    ensures Begins(i, s, b, plan) ==> Next(i.cfg, s, Run(i, b, plan), t)
  {
    hide WorldOK, ViewsOK, SameData, IsPlan, IsSubsets, Exec;
  }

  lemma NothingDone(w: World, acts: seq<Action>)
    ensures Exec(w, acts[..0]).world == w
  {
  }

  lemma StateIs(p: Planner)
    ensures p.State().acts == p.actions && p.State().src == p.srcOIS.m
  {
  }

  lemma RecordsSaved(i: Inputs, plan: PState, ois: OIS, hst: OIS)
    requires IsSubsetByPath(plan.src, i.cfg.source, ois) && hst == Records(ois)
    ensures SavedFrom(plan.src, i.cfg.source, hst)
  {
    hide IsSubsetByPath;
    forall k ensures SameAt(hst, ois, k) {}
  }

  /** What a run that finishes does to the history: the first one ever and each that did something add a step from
      which the mirror of the source is read back, and any other leaves everything as it was.  In either case there is
      a step in the end. */
  ghost predicate Kept(cfg: Config, plan: PState, st: Store, step: int, st': Store, step': int) {
    && step' > 0
    && if plan.acts != [] || step == 0 then step' > step && SavedFrom(plan.src, cfg.source, Contents(st', step'))
       else st' == st && step' == step
  }

  /** There was something to save, and the database did not take all of it. */
  ghost predicate NoRoom(cfg: Config, plan: PState, step: int, room: nat) {
    (plan.acts != [] || step == 0) && exists ois :: IsSubsetByPath(plan.src, cfg.source, ois) && |ois| >= room
  }

  /** After all actions the history is saved, but if there was nothing to do and something was saved before. */
  method SaveHistory(i: Inputs, src: ObjectInfoSet, acted: bool, hst: Connection, room: nat, ghost b: Subsets,
                     ghost plan: PState,
                     ghost s: Sys, ghost left: World)
    returns (ok: bool)
    requires hst.Valid() && src.m == plan.src && (acted <==> plan.acts != [])
    requires s == SysOf(s.world, hst) && left == Exec(s.world, plan.acts).world
    modifies hst
    ensures hst.Valid() && (!ok ==> hst.State() == old(hst.State()) && hst.stepID == old(hst.stepID))
    ensures ok ==> Kept(i.cfg, plan, old(hst.State()), old(hst.stepID), hst.State(), hst.stepID)
    ensures !ok ==> NoRoom(i.cfg, plan, old(hst.stepID), room)
    ensures ok ==> (Begins(i, s, b, plan) ==> Next(i.cfg, s, Run(i, b, plan), SysOf(left, hst)))
  {
    hide Exec, IsPlan, IsSubsets, Contents, Records, Next, SameData, WorldOK, ViewsOK, IsSubsetByPath, StoreOK,
         IsNewest;
    if acted || hst.stepID == 0 {
      var ois := src.SubsetByPath(i.cfg.source);
      ok := hst.SaveObjectInfos(ois.m, room);
      if ok {
        SavedIsNext(i, s, b, plan, ois.m, SysOf(left, hst));
        RecordsSaved(i, plan, ois.m, Contents(hst.State(), hst.stepID));
      }
    } else {
      UnsavedIsNext(i, s, b, plan, SysOf(left, hst));
      ok := true;
    }
  }

  /** What the run of a plan that fits leaves on the host. */
  lemma FitRuns(i: Inputs, b: Subsets, plan: PState, w: World, mount: string)
    requires IsSubsets(i, b) && IsPlan(i, b, plan) && Fit(i, w) && Clear(mount, i.cfg, w)
    ensures var r := HostExec(mount, Host(HostWorld(mount, w), map[]), plan.acts);
            && r.done <= |plan.acts| && r.host.world == HostWorld(mount, Exec(w, plan.acts[..r.done]).world)
            && (r.failed <==> mount != "" && (SharedPageIndex(i) || SharedThumb(i)))
  {
    hide WorldOK, ViewsOK, IsPlan, IsSubsets, Exec, HostExec, HostWorld, Clear, SharedPageIndex, SharedThumb;
    MountedRun(i, b, plan, w, mount);
  }

  /** Sync, over a device that the host has mounted as `w` says.  A run that finishes is a Run of the protocol; one
      whose action or whose save fails is a Cut, and so is a dry run, which does nothing.  An action fails exactly
      when the device is mounted and two copied books share a page index or a thumbnail that stays known. */
  method Sync(i: Inputs, m: Machine, hst: Connection, dryRun: bool, room: nat, ghost w: World) returns (res: Result,
              ghost e: Event, ghost left: World)
    requires hst.Valid() && m.world == HostWorld(m.mount, w)
    modifies m, hst
    ensures hst.Valid()
    ensures res == NoBooks ==> IsBooksOf(i.cfg, i.src, i.cfg.source, map[])
    ensures res == NoBooks || dryRun ==> m.world == old(m.world) && left == w
    ensures res != Finished || dryRun ==> hst.State() == old(hst.State()) && hst.stepID == old(hst.stepID)
    ensures res != NoBooks ==>
              !e.Edit? && e.i == i && IsSubsets(i, e.b) && e.b.local != map[] && IsPlan(i, e.b, e.plan)
    ensures dryRun ==> res == NoBooks || res == Finished
    ensures res == NotSaved ==> NoRoom(i.cfg, e.plan, old(hst.stepID), room)
    ensures e.Run? <==> res == Finished && !dryRun
    ensures res == Finished && !dryRun ==>
              Kept(i.cfg, e.plan, old(hst.State()), old(hst.stepID), hst.State(), hst.stepID)
    ensures res != NoBooks && !dryRun ==>
              var r := HostExec(m.mount, Host(old(m.world), map[]), e.plan.acts);
              m.world == r.host.world && (res == ActionFailed <==> r.failed)
    ensures res != NoBooks && !dryRun && Fit(i, w) && Clear(m.mount, i.cfg, w)
            ==> (res == ActionFailed <==> m.mount != "" && (SharedPageIndex(i) || SharedThumb(i)))
    ensures res != NoBooks && Fit(i, w) && Clear(m.mount, i.cfg, w)
              && SameData(i.hst, Contents(old(hst.State()), old(hst.stepID)))
            ==> m.world == HostWorld(m.mount, left) && Next(i.cfg, old(SysOf(w, hst)), e, SysOf(left, hst))
  {
    hide Exec, IsPlan, IsSubsets, IsBooksOf, Contents, Records, Next, SameData, WorldOK, ViewsOK, IsSubsetByPath,
         StoreOK, IsNewest, Row3, HostWorld, HostExec, Clear, SharedPageIndex, SharedThumb;
    var p;
    ghost var b;
    ghost var s := SysOf(w, hst);
    p, b := PrepareActions(i);
    if p == null { return NoBooks, Edit, w; }
    ghost var plan := p.State();
    assert plan.acts == p.actions && plan.src == p.srcOIS.m by { StateIs(p); }
    m.Begin();
    var ok, n := RunActions(m, p.actions, dryRun);
    if Fit(i, w) && Clear(m.mount, i.cfg, w) { FitRuns(i, b, plan, w, m.mount); }
    e := Cut(i, b, plan, if dryRun then 0 else n);
    left := if dryRun then w else Exec(w, plan.acts[..n]).world;
    NothingDone(w, plan.acts);
    CutIsNext(i, s, b, plan, e.n, SysOf(left, hst));
    if !ok { return ActionFailed, e, left; }
    if !dryRun {
      assert plan.acts[..n] == plan.acts;
      ok := SaveHistory(i, p.srcOIS, |p.actions| != 0, hst, room, b, plan, s, left);
      if !ok { return NotSaved, e, left; }
      e := Run(i, b, plan);
    }
    return Finished, e, left;
  }

  /** The same over an MTP device, once the plan is made: `calls` are its actions on the objects of the planner, `ois`
      its map of the device in the end and `src` its mirror of the source.  An action fails exactly when a missing
      target of one component is to be made or two copied books share a thumbnail that stays known.  The device holds
      each path once again, as the next run needs it, exactly when no action that was done copied over a file. */
  method SyncMtp(i: Inputs, d: MtpDevice.Device, calls: seq<MtpDevice.Call>, ois: map<string, MtpDevice.ObjectInfo>,
                 ids: seq<nat>,
                 src: ObjectInfoSet, hst: Connection, dryRun: bool, room: nat,
                 ghost all: set<MtpDevice.ObjectInfo>, ghost oids: map<nat, nat>, ghost b: Subsets,
                     ghost plan: PState, ghost w: World)
    returns (res: Result, ghost e: Event, ghost left: World)
    requires hst.Valid() && Begins(i, SysOf(w, hst), b, plan)
    requires src.m == plan.src && MtpDevice.ActionsOf(calls) == plan.acts && MtpDevice.MapOf(ois) == plan.dst
    requires |calls| <= |ids| && MtpDevice.OwnIds(all) && MtpDevice.Agrees(all, oids)
    requires (forall p :: p in ois ==> ois[p] in all) && forall c :: c in calls ==> c.info in all
    requires 0 !in d.store && (forall j :: 0 <= j < |ids| ==> ids[j] != 0) && Binding.HolderListed(i)
    requires Binding.Plugged(i, w, Binding.Mtp(d.host, d.store, oids))
    requires Binding.NewIds(Binding.Mtp(d.host, d.store, oids), ids)
    modifies d, all, hst
    ensures hst.Valid()
    ensures !e.Edit? && e.i == i && e.b == b && e.plan == plan && (e.Run? <==> res == Finished && !dryRun)
    ensures dryRun ==>
              res == Finished && left == w && d.store == old(d.store)
    ensures res != Finished || dryRun ==> hst.State() == old(hst.State()) && hst.stepID == old(hst.stepID)
    ensures res == Finished && !dryRun ==>
              Kept(i.cfg, plan, old(hst.State()), old(hst.stepID), hst.State(), hst.stepID)
    ensures res == NotSaved ==> NoRoom(i.cfg, plan, old(hst.stepID), room)
    ensures res != NoBooks
    ensures !dryRun ==> (res == ActionFailed <==> Binding.RootTargetMade(i, w) || SharedThumb(i))
    ensures Binding.StoreIs(d.store, left.device) && d.host == left.(device := w.device) && 0 !in d.store
    ensures Done(e) <= |plan.acts| && (Binding.EachOnce(d.store) <==> Once.NoneOver(w, plan.acts[..Done(e)]))
    ensures res == Finished && !dryRun ==> (Binding.EachOnce(d.store) <==> !Once.DoubledThumb(i))
    ensures Next(i.cfg, old(SysOf(w, hst)), e, SysOf(left, hst))
  {
    hide Exec, IsPlan, IsSubsets, Contents, Records, Next, SameData, RunOK, Begins, StoreOK, IsNewest, SharedThumb;
    hide Connection.Valid, Connection.State, MtpDevice.MapOf, MtpDevice.ActionsOf, Binding.Plugged, Binding.NewIds,
         Binding.StoreIs, Binding.RootTargetMade, Binding.HolderListed, MtpDevice.OwnIds, MtpDevice.Agrees,
         Binding.EachOnce, Once.NoneOver, Once.DoubledThumb;
    ghost var s := SysOf(w, hst);
    PluggedIn(i, w, Binding.Mtp(d.host, d.store, oids));
    BeginsOK(i, s, b, plan);
    NothingDone(w, plan.acts);
    assert plan.acts[..0] == [] && Once.NoneOver(w, []) by { Once.NothingOver(w); }
    e, left := Cut(i, b, plan, 0), w;
    if dryRun {
      CutIsNext(i, s, b, plan, 0, SysOf(left, hst));
      return Finished, e, left;
    }
    var ok, n := d.RunPlan(calls, ois, ids, all, oids, i, b, plan, w);
    e, left := Cut(i, b, plan, n), Exec(w, plan.acts[..n]).world;
    CutIsNext(i, s, b, plan, n, SysOf(left, hst));
    if !ok { return ActionFailed, e, left; }
    assert plan.acts[..n] == plan.acts;
    ok := SaveHistory(i, src, |calls| != 0, hst, room, b, plan, s, left);
    if !ok { return NotSaved, e, left; }
    return Finished, Run(i, b, plan), left;
  }

  lemma BeginsOK(i: Inputs, s: Sys, b: Subsets, plan: PState)
    requires Begins(i, s, b, plan)
    ensures RunOK(i, b, s.world) && IsPlan(i, b, plan)
  {
    hide WorldOK, ViewsOK, SameData, IsPlan, IsSubsets;
  }

  lemma PluggedIn(i: Inputs, w: World, m: Binding.Mtp)
    requires Binding.Plugged(i, w, m)
    ensures m.host == w && Binding.StoreIs(m.store, w.device) && Binding.EachOnce(m.store)
  {
  }
}
