/** files/device.go: the driver for a mounted file system.  MkDir, Remove and Copy put the mount point in front of the
    path of the object they are given, in the object itself, so an object that two actions share gets it twice. */
module Usb {
  import opened InfoSet
  import opened Plan
  import opened FileSystem
  import opened Setting
  import opened Actions
  import opened Sharing
  import opened Mounting

  class ObjectInfo {
    const id: nat
    const dir: bool
    var path: string
    var from: string

    constructor (id: nat, dir: bool, path: string, from: string)
      ensures this.id == id && this.dir == dir && this.path == path && this.from == from
    {
      this.id, this.dir, this.path, this.from := id, dir, path, from;
    }
  }

  /** The operating system does what it can do, and nothing otherwise. */
  predicate Performed(v: World, a: Action, ok: bool, w: World) {
    (ok <==> CanStep(v, a)) && w == if ok then Step(v, a) else v
  }

  /** The call as an action on the object as it is now. */
  function CallOf(kind: Kind, obj: ObjectInfo): Action
    reads obj
  {
    Action(Dst, kind, Obj(obj.id, "", "", obj.dir, obj.path, "", obj.from))
  }

  ghost function CallsOf(kinds: seq<Kind>, objs: seq<ObjectInfo>): (acts: seq<Action>)
    requires |kinds| == |objs|
    reads objs
    ensures |acts| == |objs| && forall j :: 0 <= j < |acts| ==> acts[j] == CallOf(kinds[j], objs[j])
  {
    seq(|objs|, j requires 0 <= j < |objs| reads objs => CallOf(kinds[j], objs[j]))
  }

  /** Objects are told apart by their identities. */
  ghost predicate OwnIds(objs: seq<ObjectInfo>) {
    forall o, q :: o in objs && q in objs && o.id == q.id ==> o == q
  }

  /** The path that the object has after the calls that have left `paths`. */
  function PathLeftIn(id: nat, was: string, paths: map<nat, string>): string {
    if id in paths then paths[id] else was
  }

  class Device {
    const mount: string
    var world: World

    constructor (mount: string, world: World)
      ensures this.mount == mount && this.world == world
    {
      this.mount, this.world := mount, world;
    }

    /** What one action does once the path is prefixed: the operating system decides whether it can be done. */
    method Perform(kind: Kind, obj: ObjectInfo) returns (ok: bool)
      modifies this, obj
      ensures obj.path == Mounted(mount, old(obj.path)) && obj.from == old(obj.from)
      ensures Performed(old(world), CallOf(kind, obj), ok, world)
    {
      hide CanStep, Step;
      if |mount| > 0 { obj.path := Mounted(mount, obj.path); }
      var a := CallOf(kind, obj);
      ok := CanStep(world, a);
      if ok { world := Step(world, a); }
    }

    /** The same on an object that calls before may have used: it is one step of the run on objects. */
    method Call(kind: Kind, obj: ObjectInfo, ghost objs: seq<ObjectInfo>, ghost was: map<ObjectInfo, string>,
                ghost g: Host, ghost a: Action)
      returns (ok: bool)
      requires obj in objs && OwnIds(objs) && g.world == world
      requires forall o :: o in objs ==> o in was && o.path == PathLeftIn(o.id, was[o], g.paths)
      requires a == Action(Dst, kind, Obj(obj.id, "", "", obj.dir, was[obj], "", obj.from))
      modifies this, obj
      ensures (ok <==> CanDo(mount, g, a)) && world == DoOne(mount, g, a).world
      ensures forall o :: o in objs ==>
                o.path == PathLeftIn(o.id, was[o], DoOne(mount, g, a).paths) && o.from == old(o.from)
    {
      hide Performed, Mounted, PathLeftIn, OwnIds, CanDo, DoOne, Addressed, PathNow;
      ghost var now := map o | o in objs :: o.path;
      PathIs(was[obj], g, a.obj);
      ok := Perform(kind, obj);
      AddressedIs(mount, g, a, kind, obj, old(obj.path));
      PerformedIs(mount, g, a, ok, world);
      PathsAfter(mount, g, a, obj, was, now, objs);
    }

    /** A run over the list of calls, to the first error: it is the run on objects of module Mounting. */
    method Run(kinds: seq<Kind>, objs: seq<ObjectInfo>) returns (ok: bool)
      requires |kinds| == |objs| && OwnIds(objs)
      modifies this, objs
      ensures var r := HostExec(mount, Host(old(world), map[]), old(CallsOf(kinds, objs)));
              && world == r.host.world && (ok <==> !r.failed)
              && forall o :: o in objs ==> o.path == PathLeftIn(o.id, old(o.path), r.host.paths)
    {
      hide Performed, Mounted, HostExec, PathLeftIn, OwnIds, CanStep, Step, CanDo, DoOne, Addressed, PathNow;
      ghost var was := map o | o in objs :: o.path;
      ghost var froms := map o | o in objs :: o.from;
      ghost var acts, h := CallsOf(kinds, objs), Host(world, map[]);
      forall o | o in objs ensures o.path == PathLeftIn(o.id, was[o], map[]) { FreshPath(o.id, o.path); }
      NoCalls(mount, h, acts);
      var n := 0;
      while n < |objs|
        invariant n <= |objs|
        invariant forall o :: o in objs ==> o.from == froms[o]
        invariant !HostExec(mount, h, acts[..n]).failed && HostExec(mount, h, acts[..n]).host.world == world
        invariant forall o :: o in objs ==> o.path == PathLeftIn(o.id, was[o], HostExec(mount, h, acts[..n]).host.paths)
      {
        assert objs[n] in objs;
        ghost var g := HostExec(mount, h, acts[..n]).host;
        CallNext(mount, h, acts, n);
        ok := Call(kinds[n], objs[n], objs, was, g, acts[n]);
        n := n + 1;
        if !ok { return false; }
      }
      assert acts[..n] == acts;
      ok := true;
    }
  }

  lemma FreshPath(id: nat, p: string)
    ensures PathLeftIn(id, p, map[]) == p
  {
  }

  lemma NoCalls(mount: string, h: Host, acts: seq<Action>)
    ensures HostExec(mount, h, acts[..0]) == HostOutcome(h, 0, false)
  {
  }

  /** What one more call does to the run. */
  lemma CallNext(mount: string, h: Host, acts: seq<Action>, n: nat)
    requires n < |acts| && !HostExec(mount, h, acts[..n]).failed
    ensures var g := HostExec(mount, h, acts[..n]).host;
            && (CanDo(mount, g, acts[n]) ==>
               HostExec(mount, h, acts[..n + 1]) == HostOutcome(DoOne(mount, g, acts[n]), n + 1, false))
            && (!CanDo(mount, g, acts[n]) ==>
               HostExec(mount, h, acts).failed && HostExec(mount, h, acts).host == DoOne(mount, g, acts[n]))
  {
    hide CanDo, DoOne;
    assert acts[..n + 1][..n] == acts[..n];
    if !CanDo(mount, HostExec(mount, h, acts[..n]).host, acts[n]) { HostStops(mount, h, acts, n); }
  }

  lemma PathIs(was: string, g: Host, obj: Obj)
    requires obj.path == was
    ensures PathNow(g, obj) == PathLeftIn(obj.id, was, g.paths)
  {
  }

  lemma AddressedIs(mount: string, g: Host, a: Action, kind: Kind, o: ObjectInfo, p: string)
    requires PathNow(g, a.obj) == p && o.path == Mounted(mount, p)
    requires a == Action(Dst, kind, Obj(o.id, "", "", o.dir, a.obj.path, "", o.from))
    ensures Addressed(mount, g, a) == CallOf(kind, o)
  {
    hide Mounted;
  }

  lemma PerformedIs(mount: string, g: Host, a: Action, ok: bool, w: World)
    requires Performed(g.world, Addressed(mount, g, a), ok, w)
    ensures (ok <==> CanDo(mount, g, a)) && DoOne(mount, g, a).world == w
  {
    hide CanStep, Step, Addressed;
  }

  lemma PathAfter(mount: string, g: Host, a: Action, o: ObjectInfo, obj: ObjectInfo, was: string, objs: seq<ObjectInfo>)
    requires OwnIds(objs) && o in objs && obj in objs && a.actor.Dst? && a.obj.id == obj.id
    requires (o == obj ==> a.obj.path == was)
    ensures PathLeftIn(o.id, was, DoOne(mount, g, a).paths)
            == if o == obj then Mounted(mount, PathLeftIn(o.id, was, g.paths)) else PathLeftIn(o.id, was, g.paths)
  {
    hide CanDo, Mounted;
  }

  /** The same for all objects of the calls, which have the paths `now` before this one. */
  lemma PathsAfter(mount: string, g: Host, a: Action, obj: ObjectInfo, was: map<ObjectInfo, string>,
                   now: map<ObjectInfo, string>,
                   objs: seq<ObjectInfo>)
    requires OwnIds(objs) && obj in objs && a.actor.Dst? && a.obj.id == obj.id
    requires forall o :: o in objs ==> o in was && o in now && now[o] == PathLeftIn(o.id, was[o], g.paths)
    requires obj in was && a.obj.path == was[obj]
    ensures forall o :: o in objs ==>
              PathLeftIn(o.id, was[o], DoOne(mount, g, a).paths) == if o == obj then Mounted(mount, now[o]) else now[o]
  {
    hide PathLeftIn, DoOne, Mounted, OwnIds;
    forall o | o in objs
      ensures PathLeftIn(o.id, was[o], DoOne(mount, g, a).paths) == if o == obj then Mounted(mount, now[o]) else now[o]
    {
      PathAfter(mount, g, a, o, obj, was[o], objs);
    }
  }

  /** `n` times the mount point in front of `p`. */
  function Repeat(mount: string, p: string, n: nat): string {
    if n == 0 then p else Mounted(mount, Repeat(mount, p, n - 1))
  }

  lemma RepeatNext(mount: string, p: string, n: nat)
    ensures Repeat(mount, p, 0) == p && Repeat(mount, p, n + 1) == Mounted(mount, Repeat(mount, p, n))
  {
  }

  /** How many of the first `n` calls are given this object. */
  function Uses<T(==)>(objs: seq<T>, n: nat, o: T): nat
    requires n <= |objs|
  {
    if n == 0 then 0 else Uses(objs, n - 1, o) + if objs[n - 1] == o then 1 else 0
  }

  lemma UsesNext<T>(xs: seq<T>, n: nat, x: T)
    requires n <= |xs|
    ensures Uses(xs, 0, x) == 0
    ensures n < |xs| ==> Uses(xs, n + 1, x) == Uses(xs, n, x) + if xs[n] == x then 1 else 0
  {
  }

  // ---------------------------------------------------------------------------------- what a plan addresses

  function Ids(acts: seq<Action>): (ids: seq<nat>)
    ensures |ids| == |acts| && forall j :: 0 <= j < |acts| ==> ids[j] == acts[j].obj.id
  {
    seq(|acts|, j requires 0 <= j < |acts| => acts[j].obj.id)
  }

  /** The path that the `j`th action of a plan addresses on the host. */
  function Address(mount: string, acts: seq<Action>, j: nat): string
    requires j < |acts|
  {
    Repeat(mount, acts[j].obj.path, Uses(Ids(acts), j, acts[j].obj.id) + 1)
  }

  ghost predicate CallsOnly(acts: seq<Action>) {
    OnePath(acts) && forall j :: 0 <= j < |acts| ==> acts[j].actor.Dst?
  }

  /** After `n` calls that succeed, an object that some call is given has the mount point once for each of its uses. */
  lemma {:induction false} UsedPath(mount: string, w: World, acts: seq<Action>, n: nat, k: nat)
    requires CallsOnly(acts) && n <= |acts| && k < |acts| && !HostExec(mount, Host(w, map[]), acts[..n]).failed
    ensures PathNow(HostExec(mount, Host(w, map[]), acts[..n]).host, acts[k].obj)
              == Repeat(mount, acts[k].obj.path, Uses(Ids(acts), n, acts[k].obj.id))
    decreases n
  {
    hide CanDo, Mounted, CanStep, Step, Ids;
    var ids, id := Ids(acts), acts[k].obj.id;
    UsesNext(ids, 0, id);
    RepeatNext(mount, acts[k].obj.path, 0);
    if n > 0 {
      assert acts[..n][..n - 1] == acts[..n - 1];
      UsedPath(mount, w, acts, n - 1, k);
      UsedPath(mount, w, acts, n - 1, n - 1);
      UsesNext(ids, n - 1, id);
      assert acts[n - 1].obj.id == id ==> acts[n - 1].obj.path == acts[k].obj.path;
      RepeatNext(mount, acts[k].obj.path, Uses(ids, n - 1, id));
    }
  }

  /** The path that a call of such a run asks the operating system for. */
  lemma CallAddress(mount: string, w: World, acts: seq<Action>, j: nat)
    requires CallsOnly(acts) && j < |acts| && !HostExec(mount, Host(w, map[]), acts[..j]).failed
    ensures Addressed(mount, HostExec(mount, Host(w, map[]), acts[..j]).host, acts[j]).obj.path
              == Address(mount, acts, j)
  {
    hide HostExec;
    UsedPath(mount, w, acts, j, j);
    RepeatNext(mount, acts[j].obj.path, Uses(Ids(acts), j, acts[j].obj.id));
  }

  lemma {:induction false} RepeatLonger(mount: string, p: string, n: nat)
    requires mount != ""
    ensures |Repeat(mount, p, n)| >= |p| + n
  {
    if n > 0 { RepeatLonger(mount, p, n - 1); }
  }

  lemma {:induction false} UsesIff<T>(xs: seq<T>, n: nat, x: T)
    requires n <= |xs|
    ensures Uses(xs, n, x) == 0 <==> forall k :: 0 <= k < n ==> xs[k] != x
  {
    if n > 0 { UsesIff(xs, n - 1, x); }
  }

  /** With a mount point, every action addresses exactly its planned path under the mount point if and only if no two
      actions share an object. */
  lemma AddressesExact(mount: string, acts: seq<Action>)
    requires mount != ""
    ensures (forall j :: 0 <= j < |acts| ==> Address(mount, acts, j) == Mounted(mount, acts[j].obj.path)) <==>
              !SharesObject(acts)
  {
    forall j | 0 <= j < |acts|
      ensures Address(mount, acts, j) == Mounted(mount, acts[j].obj.path) <==>
                forall k :: 0 <= k < j ==> acts[k].obj.id != acts[j].obj.id
    {
      AddressExact(mount, acts, j);
    }
    if !SharesObject(acts) {
      forall j, k | 0 <= k < j < |acts| ensures acts[k].obj.id != acts[j].obj.id {}
    }
  }

  lemma AddressExact(mount: string, acts: seq<Action>, j: nat)
    requires mount != "" && j < |acts|
    ensures Address(mount, acts, j) == Mounted(mount, acts[j].obj.path) <==>
              forall k :: 0 <= k < j ==> acts[k].obj.id != acts[j].obj.id
  {
    var n, p := Uses(Ids(acts), j, acts[j].obj.id), acts[j].obj.path;
    UsesIff(Ids(acts), j, acts[j].obj.id);
    RepeatNext(mount, p, 0);
    if n > 0 {
      RepeatNext(mount, p, n);
      RepeatLonger(mount, Mounted(mount, p), n);
      RepeatInside(mount, p, n);
    }
  }

  lemma {:induction false} RepeatInside(mount: string, p: string, n: nat)
    ensures Repeat(mount, p, n + 1) == Repeat(mount, Mounted(mount, p), n)
  {
    if n > 0 { RepeatInside(mount, p, n - 1); }
  }

  /** So, over a mounted device, every action of a plan addresses its planned path exactly when no two copied books
      share a page index that is found in the source. */
  lemma PlanAddresses(i: Inputs, b: Subsets, s: PState, w: World, mount: string)
    requires RunOK(i, b, w) && IsPlan(i, b, s) && mount != ""
    ensures (forall j :: 0 <= j < |s.acts| ==> Address(mount, s.acts, j) == Mounted(mount, s.acts[j].obj.path)) <==>
              !SharedPageIndex(i) && !SharedThumb(i)
  {
    hide RunOK, IsPlan, SharesObject, SharedPageIndex, SharedThumb;
    NoObjectSharedIff(i, b, s, w);
    AddressesExact(mount, s.acts);
  }
}
