/** Runs over a mounted device, action by action on the objects that the plan hands to the driver: the driver puts the
    mount point in front of the path in the object itself, so an object that is used again is looked for under a
    doubled mount point. */
module Mounting {
  import opened Paths
  import opened InfoSet
  import opened Plan
  import opened FileSystem
  import opened WellFormed
  import opened Invariant
  import opened Setting
  import opened Decisions
  import opened Outcomes
  import opened Actions
  import opened Sharing
  import opened Stability
  import opened Resumption

  /** path.Join of a clean mount point and a clean path. */
  function Mounted(mount: string, p: string): string {
    if mount == "" then p
    else if p == "" then mount
    else if p[0] == '/' then mount + p
    else mount + "/" + p
  }

  /** The mount point as a path relative to the root. */
  function RelMount(mount: string): string {
    if mount != "" && mount[0] == '/' then mount[1..] else mount
  }

  lemma MountedIs(mount: string, p: string)
    requires mount != "" && RelClean(p)
    ensures Mounted(mount, p) == At(mount, p)
  {
    RelCleanEnds(p);
  }

  /** A path that is mounted twice lies under the mount point at the place of the mount point itself. */
  lemma MountedTwice(mount: string, p: string)
    requires RootPath(mount) && RelClean(p)
    ensures Mounted(mount, Mounted(mount, p)) == At(mount, At(RelMount(mount), p))
  {
    MountedIs(mount, p);
    hide RelClean;
    if mount[0] == '/' { assert At(mount, p) == "/" + At(RelMount(mount), p); }
  }

  // ---------------------------------------------------------------------------------- the host

  /** The device tree as the host sees it. */
  ghost function HostTree(mount: string, t: Tree): (r: Tree)
    ensures forall p :: HostAt(mount, t, r, p)
    ensures mount in r && r[mount] == Directory && forall q :: q in r ==> AtOrBelow(q, mount)
  {
    var ks := set p | p in t :: At(mount, p);
    var r := map q | q in ks + {mount} :: if Below(q, mount) && Rel(q, mount) in t then t[Rel(q, mount)] else Directory;
    assert forall p :: HostAt(mount, t, r, p) by {
      forall p ensures HostAt(mount, t, r, p) {
        if At(mount, p) in ks {
          var q :| q in t && At(mount, q) == At(mount, p);
          AtInjective(mount, p, q);
        }
        assert p in t ==> At(mount, p) in ks;
      }
    }
    r
  }

  ghost predicate HostAt(mount: string, t: Tree, r: Tree, p: string) {
    (At(mount, p) in r <==> p in t) && (p in t && At(mount, p) in r ==> r[At(mount, p)] == t[p])
  }

  ghost function HostWorld(mount: string, w: World): World {
    if mount == "" then w else w.(device := HostTree(mount, w.device))
  }

  lemma HostUnique(mount: string, t: Tree, r: Tree)
    requires mount in r && r[mount] == Directory && (forall q :: q in r ==> AtOrBelow(q, mount))
    requires forall p :: HostAt(mount, t, r, p)
    ensures r == HostTree(mount, t)
  {
    var x := HostTree(mount, t);
    forall q ensures q in r <==> q in x { HostEntry(mount, t, r, x, q); }
    forall q | q in r ensures r[q] == x[q] { HostEntry(mount, t, r, x, q); }
  }

  lemma HostEntry(mount: string, t: Tree, r: Tree, x: Tree, q: string)
    requires mount in r && r[mount] == Directory && (forall q :: q in r ==> AtOrBelow(q, mount))
    requires forall p :: HostAt(mount, t, r, p)
    requires mount in x && x[mount] == Directory && (forall q :: q in x ==> AtOrBelow(q, mount))
    requires forall p :: HostAt(mount, t, x, p)
    ensures (q in r <==> q in x) && (q in r && q in x ==> r[q] == x[q])
  {
    if q in r || q in x {
      if q != mount {
        AtRel(q, mount);
        assert HostAt(mount, t, r, Rel(q, mount)) && HostAt(mount, t, x, Rel(q, mount));
      }
    }
  }

  lemma HostRemove(mount: string, t: Tree, p: string)
    ensures HostTree(mount, t) - {At(mount, p)} == HostTree(mount, t - {p})
  {
    hide HostTree;
    var r := HostTree(mount, t) - {At(mount, p)};
    forall q ensures HostAt(mount, t - {p}, r, q) {
      assert HostAt(mount, t, HostTree(mount, t), q);
      if At(mount, q) == At(mount, p) { AtInjective(mount, q, p); }
    }
    assert mount != At(mount, p);
    HostUnique(mount, t - {p}, r);
  }

  lemma HostAdd(mount: string, t: Tree, p: string, n: Node)
    ensures HostTree(mount, t)[At(mount, p) := n] == HostTree(mount, t[p := n])
  {
    hide HostTree;
    var r, u := HostTree(mount, t)[At(mount, p) := n], t[p := n];
    forall q ensures HostAt(mount, u, r, q) {
      assert HostAt(mount, t, HostTree(mount, t), q);
      if At(mount, q) == At(mount, p) { AtInjective(mount, q, p); }
    }
    assert mount != At(mount, p);
    HostUnique(mount, u, r);
  }

  lemma HostEmpty(mount: string, t: Tree, p: string)
    ensures Empty(HostTree(mount, t), At(mount, p)) <==> Empty(t, p)
  {
    hide HostTree;
    var r := HostTree(mount, t);
    if Empty(t, p) {
      forall q | q in r ensures !Below(q, At(mount, p)) {
        if q != mount {
          AtRel(q, mount);
          assert HostAt(mount, t, r, Rel(q, mount));
          RerootBelow(mount, Rel(q, mount), p);
        }
      }
    }
    if Empty(r, At(mount, p)) {
      forall q | q in t ensures !Below(q, p) {
        assert HostAt(mount, t, r, q);
        RerootBelow(mount, q, p);
      }
    }
  }

  lemma HostFree(mount: string, t: Tree, p: string)
    requires RootPath(mount) && RelClean(p)
    ensures Free(HostTree(mount, t), At(mount, p)) <==> Free(t, p)
  {
    hide HostTree, RelClean, Dir;
    DirAt(mount, p);
    assert HostAt(mount, t, HostTree(mount, t), p) && HostAt(mount, t, HostTree(mount, t), Dir(p));
    if Dir(p) != "." { NoDot(mount, Dir(p)); }
  }

  lemma NoDot(mount: string, r: string)
    requires RootPath(mount)
    ensures At(mount, r) != "."
  {
    assert |At(mount, r)| >= 2;
  }

  /** The action as the host sees it. */
  function Moved(mount: string, a: Action): Action {
    if a.actor.Src? then a else a.(obj := a.obj.(path := Mounted(mount, a.obj.path)))
  }

  /** Under the mount point an action of the device is possible exactly when it is on the device. */
  lemma HostCan(mount: string, w: World, a: Action)
    requires !w.mail && mount != "" && RootPath(mount) && a.actor.Dst? && RelClean(a.obj.path)
    ensures CanStep(HostWorld(mount, w), Moved(mount, a)) <==> CanStep(w, a)
  {
    hide HostTree, Free, RelClean, Empty, RootPath;
    var p, t := a.obj.path, w.device;
    MountedIs(mount, p);
    HostFree(mount, t, p);
    HostEmpty(mount, t, p);
    assert HostAt(mount, t, HostTree(mount, t), p);
  }

  lemma HostDo(mount: string, w: World, a: Action)
    requires !w.mail && mount != "" && RootPath(mount) && a.actor.Dst? && RelClean(a.obj.path)
    requires CanStep(w, a) && CanStep(HostWorld(mount, w), Moved(mount, a))
    ensures Step(HostWorld(mount, w), Moved(mount, a)) == HostWorld(mount, Step(w, a))
  {
    hide HostTree, CanRemove, Free, RelClean, RootPath;
    var p, t := a.obj.path, w.device;
    MountedIs(mount, p);
    HostRemove(mount, t, p);
    HostAdd(mount, t, p, Directory);
    if a.kind.Copy? { HostAdd(mount, t, p, HostFile(w, a.obj.from).value); }
  }

  /** The host can do an action under the mount point exactly when the device can do it, with the same effect. */
  lemma HostStep(mount: string, w: World, a: Action)
    requires !w.mail && (mount == "" || (RootPath(mount) && (a.actor.Dst? ==> RelClean(a.obj.path))))
    ensures CanStep(HostWorld(mount, w), Moved(mount, a)) <==> CanStep(w, a)
    ensures CanStep(w, a) ==>
              CanStep(HostWorld(mount, w), Moved(mount, a))
                  && Step(HostWorld(mount, w), Moved(mount, a)) == HostWorld(mount, Step(w, a))
  {
    hide HostTree, CanCopy, Free, RelClean, Empty, RootPath;
    if mount != "" && a.actor.Dst? {
      HostCan(mount, w, a);
      if CanStep(w, a) { HostDo(mount, w, a); }
    }
  }

  // ---------------------------------------------------------------------------------- runs on objects

  /** The host, and the path that each object used so far has now. */
  datatype Host = Host(world: World, paths: map<nat, string>)

  function PathNow(h: Host, o: Obj): string {
    if o.id in h.paths then h.paths[o.id] else o.path
  }

  /** What the driver asks the host to do: a device action is addressed under the mount point. */
  function Addressed(mount: string, h: Host, a: Action): Action {
    Moved(mount, a.(obj := a.obj.(path := PathNow(h, a.obj))))
  }

  predicate CanDo(mount: string, h: Host, a: Action) {
    CanStep(h.world, Addressed(mount, h, a))
  }

  /** The path is stored back in the object whether or not the action can be done. */
  function DoOne(mount: string, h: Host, a: Action): Host {
    var b := Addressed(mount, h, a);
    Host(if CanDo(mount, h, a) then Step(h.world, b) else h.world, h.paths[a.obj.id := b.obj.path])
  }

  datatype HostOutcome = HostOutcome(host: Host, done: nat, failed: bool)

  /** The loop over the actions, to the first that fails. */
  function HostExec(mount: string, h: Host, acts: seq<Action>): (r: HostOutcome)
    ensures r.done <= |acts| && (!r.failed ==> r.done == |acts|)
    decreases |acts|
  {
    if acts == [] then HostOutcome(h, 0, false)
    else
      var r := HostExec(mount, h, acts[..|acts| - 1]);
      var a := acts[|acts| - 1];
      if r.failed then r
      else if CanDo(mount, r.host, a) then HostOutcome(DoOne(mount, r.host, a), |acts|, false)
      else HostOutcome(DoOne(mount, r.host, a), |acts| - 1, true)
  }

  lemma {:induction false} HostStops(mount: string, h: Host, acts: seq<Action>, n: nat)
    requires n < |acts| && !HostExec(mount, h, acts[..n]).failed
    requires !CanDo(mount, HostExec(mount, h, acts[..n]).host, acts[n])
    ensures var r := HostExec(mount, h, acts);
            && r.failed && r.done == n && r.host == DoOne(mount, HostExec(mount, h, acts[..n]).host, acts[n])
            && r.host.world == HostExec(mount, h, acts[..n]).host.world
    decreases |acts|
  {
    var pre := acts[..|acts| - 1];
    if n < |acts| - 1 {
      assert pre[..n] == acts[..n];
      HostStops(mount, h, pre, n);
    }
  }

  /** Each object used has the path that its last use has left in it. */
  predicate PathLeft(mount: string, paths: map<nat, string>, a: Action) {
    a.obj.id in paths && paths[a.obj.id] == Moved(mount, a).obj.path
  }

  ghost predicate PathsLeft(mount: string, paths: map<nat, string>, acts: seq<Action>) {
    && (forall j :: 0 <= j < |acts| ==> PathLeft(mount, paths, acts[j]))
    && (forall id :: id in paths ==> !Unused(acts, id))
  }

  ghost predicate FreshTo(acts: seq<Action>, n: nat)
    requires n <= |acts|
  {
    forall j, k :: 0 <= j < k < n ==> acts[j].obj.id != acts[k].obj.id
  }

  /** What is known of the planned run along the way. */
  ghost predicate CleanAt(w: World, acts: seq<Action>, n: int) {
    0 <= n <= |acts| ==> DeviceTree(Exec(w, acts[..n]).world.device) && !Exec(w, acts[..n]).world.mail
  }

  ghost predicate CleanRun(w: World, acts: seq<Action>) {
    !Exec(w, acts).failed && forall n :: CleanAt(w, acts, n)
  }

  /** Whatever is made or removed on the device has a clean relative path. */
  lemma CleanPath(w: World, a: Action)
    requires DeviceTree(w.device) && !w.mail && CanStep(w, a) && DeviceTree(Step(w, a).device) && a.actor.Dst?
    ensures RelClean(a.obj.path)
  {
    hide RelClean;
    assert DeviceAt(w.device, a.obj.path) && DeviceAt(Step(w, a).device, a.obj.path);
  }

  lemma PlannedStep(w: World, acts: seq<Action>, n: nat)
    requires CleanRun(w, acts) && n < |acts|
    ensures var v := Exec(w, acts[..n]).world;
            && !Exec(w, acts[..n]).failed && !v.mail && CanStep(v, acts[n])
               && Exec(w, acts[..n + 1]) == Outcome(Step(v, acts[n]), n + 1, false)
            && (acts[n].actor.Dst? ==> RelClean(acts[n].obj.path))
  {
    hide DeviceTree, CanStep, Step, RelClean;
    ExecPrefix(w, acts, n);
    ExecPrefix(w, acts, n + 1);
    assert acts[..n + 1][..n] == acts[..n];
    assert CleanAt(w, acts, n) && CleanAt(w, acts, n + 1);
    if acts[n].actor.Dst? { CleanPath(Exec(w, acts[..n]).world, acts[n]); }
  }

  lemma PathStays(h: Host, o: Obj)
    requires o.id in h.paths ==> h.paths[o.id] == o.path
    ensures PathNow(h, o) == o.path
  {
  }

  /** One action on an object that has its planned path. */
  lemma FollowOne(mount: string, w: World, h: Host, a: Action)
    requires !w.mail && h.world == HostWorld(mount, w) && CanStep(w, a) && PathNow(h, a.obj) == a.obj.path
    requires mount == "" || (RootPath(mount) && (a.actor.Dst? ==> RelClean(a.obj.path)))
    ensures CanDo(mount, h, a)
    ensures DoOne(mount, h, a) == Host(HostWorld(mount, Step(w, a)), h.paths[a.obj.id := Moved(mount, a).obj.path])
  {
    hide CanStep, Step, HostWorld;
    assert Addressed(mount, h, a) == Moved(mount, a);
    HostStep(mount, w, a);
  }

  lemma PathsSnoc(mount: string, paths: map<nat, string>, acts: seq<Action>, a: Action)
    requires PathsLeft(mount, paths, acts)
    requires (forall j :: 0 <= j < |acts| && acts[j].obj.id == a.obj.id ==>
              Moved(mount, acts[j]).obj.path == Moved(mount, a).obj.path)
    ensures PathsLeft(mount, paths[a.obj.id := Moved(mount, a).obj.path], acts + [a])
  {
    hide Moved;
    var t, m := acts + [a], paths[a.obj.id := Moved(mount, a).obj.path];
    forall j | 0 <= j < |t| ensures PathLeft(mount, m, t[j]) {
      if j < |acts| { assert PathLeft(mount, paths, acts[j]); }
    }
    forall id | id in m ensures !Unused(t, id) {
      if id == a.obj.id {
        assert t[|acts|].obj.id == id;
      } else {
        assert !Unused(acts, id);
        var j :| 0 <= j < |acts| && acts[j].obj.id == id;
        assert t[j].obj.id == id;
      }
    }
  }

  /** The object of the next action was not used before. */
  lemma NextIsFresh(mount: string, paths: map<nat, string>, acts: seq<Action>, n: nat)
    requires n < |acts| && FreshTo(acts, n + 1) && PathsLeft(mount, paths, acts[..n])
    ensures acts[n].obj.id !in paths && FreshTo(acts, n)
    ensures forall j :: 0 <= j < n ==> acts[..n][j].obj.id != acts[n].obj.id
  {
    hide PathLeft;
    forall j | 0 <= j < n ensures acts[..n][j].obj.id != acts[n].obj.id { assert acts[..n][j] == acts[j]; }
    assert Unused(acts[..n], acts[n].obj.id);
  }

  /** One more action that can be done. */
  lemma HostSnoc(mount: string, h: Host, pre: seq<Action>, a: Action)
    requires !HostExec(mount, h, pre).failed && CanDo(mount, HostExec(mount, h, pre).host, a)
    ensures HostExec(mount, h, pre + [a])
              == HostOutcome(DoOne(mount, HostExec(mount, h, pre).host, a), |pre| + 1, false)
  {
    hide CanDo, DoOne;
    assert (pre + [a])[..|pre|] == pre;
  }

  lemma FollowsNothing(mount: string, w: World, acts: seq<Action>)
    ensures HostExec(mount, Host(HostWorld(mount, w), map[]), acts[..0])
              == HostOutcome(Host(HostWorld(mount, w), map[]), 0, false)
    ensures Exec(w, acts[..0]) == Outcome(w, 0, false) && PathsLeft(mount, map[], acts[..0])
  {
    hide HostTree, CanDo, DoOne, CanStep, Step;
    assert acts[..0] == [];
  }

  /** As long as no object is used again, the run on the host follows the planned run. */
  lemma {:induction false} Follows(mount: string, w: World, acts: seq<Action>, n: nat)
    requires CleanRun(w, acts) && n <= |acts| && FreshTo(acts, n) && (mount == "" || RootPath(mount))
    ensures var r := HostExec(mount, Host(HostWorld(mount, w), map[]), acts[..n]);
            && !r.failed && r.done == n && r.host.world == HostWorld(mount, Exec(w, acts[..n]).world)
            && PathsLeft(mount, r.host.paths, acts[..n])
    decreases n
  {
    hide CleanRun, CanStep, Step, HostWorld, RootPath, RelClean, Moved, PathsLeft, FreshTo, CanDo, DoOne, Exec,
         HostExec, PathNow;
    var h := Host(HostWorld(mount, w), map[]);
    if n == 0 {
      FollowsNothing(mount, w, acts);
    } else {
      var pre, a := acts[..n - 1], acts[n - 1];
      FreshLess(acts, n);
      Follows(mount, w, acts, n - 1);
      PlannedStep(w, acts, n - 1);
      assert acts[..n] == pre + [a];
      var r := HostExec(mount, h, pre);
      NextIsFresh(mount, r.host.paths, acts, n - 1);
      PathStays(r.host, a.obj);
      FollowOne(mount, Exec(w, pre).world, r.host, a);
      HostSnoc(mount, h, pre, a);
      PathsSnoc(mount, r.host.paths, pre, a);
    }
  }

  lemma FreshLess(acts: seq<Action>, n: nat)
    requires 0 < n <= |acts| && FreshTo(acts, n)
    ensures FreshTo(acts, n - 1)
  {
  }

  /** Actions on the same object have the same planned path. */
  predicate OnePath(acts: seq<Action>) {
    forall j, k :: 0 <= j < k < |acts| && acts[j].obj.id == acts[k].obj.id ==> acts[j].obj.path == acts[k].obj.path
  }

  /** Without a mount point an object that was used has its planned path. */
  lemma PlainPath(paths: map<nat, string>, acts: seq<Action>, n: nat)
    requires n < |acts| && OnePath(acts) && PathsLeft("", paths, acts[..n])
    ensures acts[n].obj.id in paths ==> paths[acts[n].obj.id] == acts[n].obj.path
    ensures forall j :: 0 <= j < n && acts[..n][j].obj.id == acts[n].obj.id ==>
              acts[..n][j].obj.path == acts[n].obj.path
  {
    if acts[n].obj.id in paths {
      assert !Unused(acts[..n], acts[n].obj.id);
      var j :| 0 <= j < n && acts[..n][j].obj.id == acts[n].obj.id;
      assert PathLeft("", paths, acts[..n][j]) && acts[..n][j] == acts[j];
    }
    forall j | 0 <= j < n ensures acts[..n][j] == acts[j] {}
  }

  lemma PlainMoved(a: Action)
    ensures Moved("", a).obj.path == a.obj.path
  {
  }

  /** Without a mount point the paths of objects never change. */
  lemma {:induction false} FollowsPlain(w: World, acts: seq<Action>, n: nat)
    requires CleanRun(w, acts) && n <= |acts| && OnePath(acts)
    ensures var r := HostExec("", Host(w, map[]), acts[..n]);
            !r.failed && r.done == n && r.host.world == Exec(w, acts[..n]).world
                && PathsLeft("", r.host.paths, acts[..n])
    decreases n
  {
    hide CleanRun, CanStep, Step, RelClean, Moved, PathsLeft, OnePath, CanDo, DoOne, Exec, HostExec, PathNow, HostWorld;
    var h := Host(w, map[]);
    if n == 0 {
      Unmounted(w);
      FollowsNothing("", w, acts);
    } else {
      var pre, a := acts[..n - 1], acts[n - 1];
      FollowsPlain(w, acts, n - 1);
      PlannedStep(w, acts, n - 1);
      assert acts[..n] == pre + [a];
      var r := HostExec("", h, pre);
      PlainPath(r.host.paths, acts, n - 1);
      PathStays(r.host, a.obj);
      Unmounted(Exec(w, pre).world);
      Unmounted(Exec(w, acts[..n]).world);
      FollowOne("", Exec(w, pre).world, r.host, a);
      HostSnoc("", h, pre, a);
      forall x ensures Moved("", x).obj.path == x.obj.path { PlainMoved(x); }
      PathsSnoc("", r.host.paths, pre, a);
    }
  }

  lemma {:induction false} FirstReuse(acts: seq<Action>, n: nat) returns (k: nat)
    requires n <= |acts| && !FreshTo(acts, n)
    ensures k < n && FreshTo(acts, k) && exists j :: 0 <= j < k && acts[j].obj.id == acts[k].obj.id
    decreases n
  {
    if FreshTo(acts, n - 1) {
      k := n - 1;
    } else {
      k := FirstReuse(acts, n - 1);
    }
  }

  // ---------------------------------------------------------------------------------- the theorem

  /** The device holds nothing at the path of its own mount point, and a run makes nothing there. */
  predicate Clear(mount: string, cfg: Config, w: World) {
    mount == "" || (RootPath(mount) && RelMount(mount) !in w.device && !InScope(cfg, RelMount(mount)))
  }

  lemma PlanCleanRun(i: Inputs, b: Subsets, s: PState, w: World)
    requires RunOK(i, b, w) && IsPlan(i, b, s)
    ensures CleanRun(w, s.acts)
  {
    hide RunOK, IsPlan, Exec, DeviceTree, Ended;
    HypothesesKept(i, b, s, w, |s.acts|);
    assert s.acts[..|s.acts|] == s.acts;
    forall n ensures CleanAt(w, s.acts, n) {
      if 0 <= n <= |s.acts| {
        HypothesesKept(i, b, s, w, n);
        WorldClean(i.cfg, Exec(w, s.acts[..n]).world);
      }
    }
  }

  lemma WorldClean(cfg: Config, w: World)
    requires WorldOK(cfg, w)
    ensures DeviceTree(w.device)
  {
  }

  /** Nothing lies under a doubled mount point at any time during the run. */
  lemma NothingDoubled(i: Inputs, b: Subsets, s: PState, w: World, mount: string, n: nat, p: string)
    requires RunOK(i, b, w) && IsPlan(i, b, s) && n <= |s.acts| && mount != "" && Clear(mount, i.cfg, w)
    ensures At(RelMount(mount), p) !in Exec(w, s.acts[..n]).world.device
  {
    hide RunOK, IsPlan, Exec, DeviceTree, Ended, RootPath;
    var d, m := Exec(w, s.acts[..n]).world.device, RelMount(mount);
    PlanEnds(i, b, s, w);
    PlanCleanRun(i, b, s, w);
    assert CleanAt(w, s.acts, n);
    if At(m, p) in d {
      assert m != "" by { MountNotEmpty(mount); }
      DeviceAbove(d, At(m, p), m);
      NewPath(i, b, w, s, n, m);
    }
  }

  lemma MountNotEmpty(mount: string)
    requires RootPath(mount)
    ensures RelMount(mount) != ""
  {
    assert mount[0] == '/' ==> |mount| > 1;
  }

  /** What a second use of an object is: the same object with the same planned path, removed from the device. */
  lemma SecondUse(i: Inputs, b: Subsets, s: PState, w: World, j: int, k: int)
    requires RunOK(i, b, w) && IsPlan(i, b, s) && 0 <= j < k < |s.acts| && s.acts[j].obj.id == s.acts[k].obj.id
    ensures s.acts[j].actor.Dst? && Removes(s.acts[k]) && s.acts[j].obj == s.acts[k].obj
  {
    hide RunOK, IsPlan, Ended, Exec, Reasons, FreshCopies, Parents, CtxFor, RemovedMade;
    PlanEnds(i, b, s, w);
    EndedHasObjects(i, b, w, s);
    assert PairOK(CtxFor(i, b, w), s.acts, j, k);
  }

  /** The second use of an object fails: its path has the mount point twice. */
  lemma ReuseFails(i: Inputs, b: Subsets, s: PState, w: World, mount: string, j: int, k: int)
    requires RunOK(i, b, w) && IsPlan(i, b, s) && mount != "" && Clear(mount, i.cfg, w)
    requires 0 <= j < k < |s.acts| && FreshTo(s.acts, k) && s.acts[j].obj.id == s.acts[k].obj.id
    ensures !CanDo(mount, HostExec(mount, Host(HostWorld(mount, w), map[]), s.acts[..k]).host, s.acts[k])
  {
    hide RunOK, IsPlan, Exec, RootPath, RelClean, HostExec, HostTree;
    PlanCleanRun(i, b, s, w);
    Follows(mount, w, s.acts, k);
    SecondUse(i, b, s, w, j, k);
    PlannedStep(w, s.acts, k);
    var h, p := HostExec(mount, Host(HostWorld(mount, w), map[]), s.acts[..k]).host, s.acts[k].obj.path;
    assert PathLeft(mount, h.paths, s.acts[..k][j]);
    MountedTwice(mount, p);
    NothingDoubled(i, b, s, w, mount, k, p);
    var d := Exec(w, s.acts[..k]).world.device;
    assert HostAt(mount, d, HostTree(mount, d), At(RelMount(mount), p));
    HostMail(mount, Exec(w, s.acts[..k]).world);
  }

  lemma HostMail(mount: string, w: World)
    ensures HostWorld(mount, w).mail == w.mail
    ensures (mount != "" ==> HostWorld(mount, w).device == HostTree(mount, w.device))
  {
  }

  /** Over a mounted device that holds nothing at the path of its own mount point, a plan is done to the end, and leaves
      under the mount point exactly the device that the plan predicts, if and only if no two copied books share a page
      index that is found in the source or a thumbnail that stays known.  Otherwise the run does exactly what is planned
      before the first object that is used again, and stops there. */
  lemma MountedRun(i: Inputs, b: Subsets, s: PState, w: World, mount: string)
    requires RunOK(i, b, w) && IsPlan(i, b, s) && Clear(mount, i.cfg, w)
    ensures var r := HostExec(mount, Host(HostWorld(mount, w), map[]), s.acts);
            && r.host.world == HostWorld(mount, Exec(w, s.acts[..r.done]).world)
            && (r.failed <==> mount != "" && (SharedPageIndex(i) || SharedThumb(i)))
            && (r.failed <==> r.done < |s.acts|)
  {
    hide RunOK, IsPlan, Exec, RootPath, RelClean, HostExec, HostWorld, SharedPageIndex, SharedThumb, CanDo, DoOne,
         PathsLeft, CleanRun;
    var h := Host(HostWorld(mount, w), map[]);
    assert s.acts[..|s.acts|] == s.acts;
    PlanCleanRun(i, b, s, w);
    NoObjectSharedIff(i, b, s, w);
    assert mount == "" || RootPath(mount);
    if mount == "" {
      assert HostWorld(mount, w) == w by { Unmounted(w); }
      forall j, k | 0 <= j < k < |s.acts| && s.acts[j].obj.id == s.acts[k].obj.id
        ensures s.acts[j].obj.path == s.acts[k].obj.path
      {
        SecondUse(i, b, s, w, j, k);
      }
      FollowsPlain(w, s.acts, |s.acts|);
      Unmounted(Exec(w, s.acts).world);
    } else if FreshTo(s.acts, |s.acts|) {
      Follows(mount, w, s.acts, |s.acts|);
    } else {
      var k := FirstReuse(s.acts, |s.acts|);
      var j :| 0 <= j < k && s.acts[j].obj.id == s.acts[k].obj.id;
      Follows(mount, w, s.acts, k);
      ReuseFails(i, b, s, w, mount, j, k);
      HostStops(mount, h, s.acts, k);
    }
  }

  lemma Unmounted(w: World)
    ensures HostWorld("", w) == w
  {
  }
}
