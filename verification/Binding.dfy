/** mtp/device_linux.go: runs over an MTP device, which knows objects by its own ids.  The parent of a created object is
    looked up in the planner's final map when the call runs, and a removal names the id that the object has. */
module Binding {
  import opened Paths
  import opened InfoSet
  import opened Plan
  import opened FileSystem
  import opened WellFormed
  import opened Invariant
  import opened LocalPhase
  import opened Removals
  import opened DeviceRemovals
  import opened Copies
  import opened CopyLoop
  import opened Setting
  import opened Decisions
  import opened Outcomes
  import opened OrderFree
  import opened Actions
  import opened Sharing
  import opened Mounting

  /** What the device keeps under an id. */
  datatype Entry = Entry(path: string, node: Node)

  type Store = map<nat, Entry>

  /** The host with the local file system, the objects of the device by id, and the ids that the planner's objects
      have: an object that the device has not made yet has none. */
  datatype Mtp = Mtp(host: World, store: Store, oids: map<nat, nat>)

  /** The object that the map has for the directory of the path. */
  function ParentOf(ois: OIS, a: Action): Option<Obj> { Find(ois, Dir(a.obj.path)) }

  /** The id under which the device has this object now. */
  function Held(m: Mtp, id: nat): Option<nat> {
    if id in m.oids && m.oids[id] in m.store then Some(m.oids[id]) else None
  }

  /** The parent is in the map, and the device has it as a folder. */
  predicate HasFolder(ois: OIS, m: Mtp, a: Action) {
    && ParentOf(ois, a).Some? && Held(m, ParentOf(ois, a).value.id).Some?
    && m.store[Held(m, ParentOf(ois, a).value.id).value].node.Directory?
  }

  predicate CanCall(ois: OIS, m: Mtp, a: Action) {
    match a.actor
    case Src => CanStep(m.host, a)
    case Dst =>
      match a.kind
      case Remove => Held(m, a.obj.id).Some?
      case MkDir => HasFolder(ois, m, a)
      case Copy => HasFolder(ois, m, a) && Readable(m.host, a.obj.from)
  }

  /** The new object is named in the folder of its parent, and it gets the id that the device answers. */
  function Created(ois: OIS, m: Mtp, a: Action, id: nat, n: Node): Mtp
    requires HasFolder(ois, m, a)
  {
    var folder := m.store[Held(m, ParentOf(ois, a).value.id).value];
    m.(store := m.store[id := Entry(At(folder.path, a.obj.name), n)], oids := m.oids[a.obj.id := id])
  }

  function Call(ois: OIS, m: Mtp, a: Action, id: nat): Mtp
    requires CanCall(ois, m, a)
  {
    match a.actor
    case Src => m.(host := Step(m.host, a))
    case Dst =>
      match a.kind
      case Remove => m.(store := m.store - {m.oids[a.obj.id]})
      case MkDir => Created(ois, m, a, id, Directory)
      case Copy => Created(ois, m, a, id, HostFile(m.host, a.obj.from).value)
  }

  datatype Ran = Ran(mtp: Mtp, done: nat, failed: bool)

  /** The loop over the actions, to the first that fails. */
  function MtpExec(ois: OIS, m: Mtp, acts: seq<Action>, ids: seq<nat>): (r: Ran)
    requires |acts| <= |ids|
    ensures r.done <= |acts| && (!r.failed ==> r.done == |acts|)
    decreases |acts|
  {
    if acts == [] then Ran(m, 0, false)
    else
      var n := |acts| - 1;
      var r := MtpExec(ois, m, acts[..n], ids);
      if r.failed then r
      else if CanCall(ois, r.mtp, acts[n]) then Ran(Call(ois, r.mtp, acts[n], ids[n]), |acts|, false)
      else r.(failed := true)
  }

  lemma {:induction false} MtpStops(ois: OIS, m: Mtp, acts: seq<Action>, ids: seq<nat>, n: nat)
    requires |acts| <= |ids| && n < |acts| && !MtpExec(ois, m, acts[..n], ids).failed
    requires !CanCall(ois, MtpExec(ois, m, acts[..n], ids).mtp, acts[n])
    ensures MtpExec(ois, m, acts, ids) == MtpExec(ois, m, acts[..n], ids).(failed := true)
    decreases |acts|
  {
    hide CanCall, Call;
    var pre := acts[..|acts| - 1];
    if n < |acts| - 1 {
      assert pre[..n] == acts[..n];
      MtpStops(ois, m, pre, ids, n);
    }
  }

  // ---------------------------------------------------------------------------------- the device at the start

  ghost predicate ListedAt(i: Inputs, w: World, m: Mtp, p: string) {
    p in i.dst && p in w.device ==>
        Held(m, i.dst[p].id).Some? && m.store[Held(m, i.dst[p].id).value] == Entry(p, w.device[p])
  }

  /** The store and the tree have the same entries. */
  ghost predicate StoreIs(st: Store, t: Tree) {
    && (forall x :: x in st ==> st[x].path in t && t[st[x].path] == st[x].node)
    && forall p :: p in t ==> StoredAt(st, p)
  }

  ghost predicate StoredAt(st: Store, p: string) {
    exists x :: x in st && st[x].path == p
  }

  ghost predicate OneId(oids: map<nat, nat>, a: nat, b: nat) {
    a in oids && b in oids && oids[a] == oids[b] ==> a == b
  }

  /** No two objects of the device have one path. */
  ghost predicate EachOnce(st: Store) {
    forall x, y :: x in st && y in st && st[x].path == st[y].path ==> x == y
  }

  /** The device holds `w.device`, each path once, and the enumerated objects have their ids. */
  ghost predicate Plugged(i: Inputs, w: World, m: Mtp) {
    && m.host == w && StoreIs(m.store, w.device) && EachOnce(m.store)
    && (forall p :: ListedAt(i, w, m, p))
    && (forall a, b :: OneId(m.oids, a, b)) && (forall a :: a in m.oids ==> m.oids[a] in m.store)
  }

  /** The device gives every new object an id of its own. */
  ghost predicate NewIds(m: Mtp, ids: seq<nat>) {
    && (forall j :: 0 <= j < |ids| ==> ids[j] !in m.store)
    && (forall j, k :: 0 <= j < k < |ids| ==> ids[j] != ids[k])
  }

  /** The directory that holds the target is enumerated, as the walk over the device does. */
  predicate HolderListed(i: Inputs) {
    Dir(i.cfg.target) != "." ==> Dir(i.cfg.target) in i.dst
  }

  // ---------------------------------------------------------------------------------- along the way

  predicate Makes(a: Action, o: Obj) {
    a.actor.Dst? && !a.kind.Remove? && a.obj == o
  }

  ghost predicate MadeIn(acts: seq<Action>, o: Obj) {
    exists j :: 0 <= j < |acts| && Makes(acts[j], o)
  }

  /** The object is enumerated or made, and not removed. */
  ghost predicate Alive(i: Inputs, acts: seq<Action>, o: Obj) {
    ((o.path in i.dst && o == i.dst[o.path]) || MadeIn(acts, o)) && !RemovedBefore(acts, o)
  }

  ghost predicate AliveHeld(i: Inputs, acts: seq<Action>, m: Mtp, o: Obj) {
    Alive(i, acts, o) ==> Held(m, o.id).Some? && m.store[Held(m, o.id).value].path == o.path
  }

  ghost predicate DeadGone(acts: seq<Action>, m: Mtp, o: Obj) {
    RemovedBefore(acts, o) ==> o.id in m.oids && m.oids[o.id] !in m.store
  }

  /** Two entries share a path only after a thumbnail was copied there. */
  ghost predicate OnceAt(acts: seq<Action>, st: Store, x: nat, y: nat) {
    x in st && y in st && x != y && st[x].path == st[y].path ==>
      Below(st[x].path, THUMBNAIL_FOLDER) && !NotCopied(acts, st[x].path)
  }

  ghost predicate FreshIds(m: Mtp, ids: seq<nat>, n: nat) {
    && (forall j :: n <= j < |ids| ==> ids[j] !in m.store)
    && (forall j, a :: n <= j < |ids| && a in m.oids ==> ids[j] != m.oids[a])
    && (forall j, k :: 0 <= j < k < |ids| ==> ids[j] != ids[k])
  }

  /** The device after the first `n` actions: by its ids it holds what the planned run leaves. */
  ghost predicate Bound(i: Inputs, w: World, acts: seq<Action>, ids: seq<nat>, n: nat, m: Mtp)
    requires n <= |acts|
  {
    && m.host == Exec(w, acts[..n]).world.(device := w.device)
    && StoreIs(m.store, Exec(w, acts[..n]).world.device)
    && (forall x, y :: OnceAt(acts[..n], m.store, x, y))
    && (forall o :: AliveHeld(i, acts[..n], m, o)) && (forall o :: DeadGone(acts[..n], m, o))
    && (forall a, b :: OneId(m.oids, a, b)) && FreshIds(m, ids, n)
  }

  lemma BoundStart(i: Inputs, w: World, acts: seq<Action>, ids: seq<nat>, m: Mtp)
    requires Plugged(i, w, m) && NewIds(m, ids) && i.dst.Keys <= w.device.Keys
    ensures Bound(i, w, acts, ids, 0, m)
  {
    assert acts[..0] == [];
    forall o ensures AliveHeld(i, [], m, o) { assert ListedAt(i, w, m, o.path); }
    forall o ensures DeadGone([], m, o) {}
    forall x, y ensures OnceAt([], m.store, x, y) {}
  }

  /** What is known of the actions of a plan. */
  ghost predicate PlanActs(i: Inputs, c: Ctx, w: World, s: PState) {
    && c.i == i && c.w0 == w && OwnObjects(i) && i.dst.Keys <= w.device.Keys
    && SharesOnlyReplaced(c, s.acts) && Reasons(c, s.acts) && FreshCopies(c, s.acts) && Parents(c, s)
       && CleanRun(w, s.acts)
    && KeyedMirror(s) && Untouched(c, s) && "." !in s.dst && (forall p :: p in i.dst ==> i.dst[p].path == p)
  }

  // ---------------------------------------------------------------------------------- one step

  lemma RemovedSnoc1(acts: seq<Action>, a: Action, o: Obj)
    ensures RemovedBefore(acts + [a], o) <==> RemovedBefore(acts, o) || a == Action(Dst, Remove, o)
  {
    var t := acts + [a];
    if RemovedBefore(acts, o) {
      var m :| 0 <= m < |acts| && acts[m] == Action(Dst, Remove, o);
      assert t[m] == acts[m];
    }
    if a == Action(Dst, Remove, o) { assert t[|acts|] == a; }
  }

  lemma MadeSnoc1(acts: seq<Action>, a: Action, o: Obj)
    ensures MadeIn(acts + [a], o) <==> MadeIn(acts, o) || Makes(a, o)
  {
    var t := acts + [a];
    if MadeIn(acts, o) {
      var m :| 0 <= m < |acts| && Makes(acts[m], o);
      assert t[m] == acts[m];
    }
    if Makes(a, o) { assert t[|acts|] == a; }
  }

  lemma NotCopiedSnoc(acts: seq<Action>, a: Action, p: string)
    ensures NotCopied(acts + [a], p) <==> NotCopied(acts, p) && !Is(a, Dst, Copy, p)
  {
    var t := acts + [a];
    if NotCopied(t, p) {
      forall j | 0 <= j < |acts| ensures !Is(acts[j], Dst, Copy, p) { assert t[j] == acts[j]; }
      assert !Is(t[|acts|], Dst, Copy, p);
    }
  }

  lemma OnceSnoc(acts: seq<Action>, a: Action, st: Store)
    requires forall x, y :: OnceAt(acts, st, x, y)
    ensures forall x, y :: OnceAt(acts + [a], st, x, y)
  {
    forall x, y ensures OnceAt(acts + [a], st, x, y) {
      assert OnceAt(acts, st, x, y);
      if x in st { NotCopiedSnoc(acts, a, st[x].path); }
    }
  }

  /** A local action. */
  lemma BoundLocal(i: Inputs, w: World, acts: seq<Action>, ids: seq<nat>, n: nat, m: Mtp)
    requires n < |acts| && Bound(i, w, acts, ids, n, m) && acts[n].actor.Src? && CleanRun(w, acts)
    ensures CanStep(m.host, acts[n]) && Bound(i, w, acts, ids, n + 1, m.(host := Step(m.host, acts[n])))
  {
    hide CleanRun, Exec, StoreIs;
    var pre, a := acts[..n], acts[n];
    PlannedStep(w, acts, n);
    assert acts[..n + 1] == pre + [a];
    var t := m.(host := Step(m.host, a));
    OnceSnoc(pre, a, m.store);
    forall o ensures AliveHeld(i, pre + [a], t, o) && DeadGone(pre + [a], t, o) {
      assert AliveHeld(i, pre, m, o) && DeadGone(pre, m, o);
      RemovedSnoc1(pre, a, o);
      MadeSnoc1(pre, a, o);
    }
  }

  lemma StoreAdd(st: Store, t: Tree, x: nat, p: string, n: Node)
    requires StoreIs(st, t) && x !in st && (p in t ==> t[p] == n)
    ensures StoreIs(st[x := Entry(p, n)], t[p := n])
  {
    var u := st[x := Entry(p, n)];
    forall q | q in t[p := n] ensures StoredAt(u, q) {
      if q == p {
        assert u[x].path == p;
      } else {
        assert StoredAt(st, q);
        var y :| y in st && st[y].path == q;
        assert u[y].path == q;
      }
    }
  }

  lemma StoreRemove(st: Store, t: Tree, x: nat)
    requires StoreIs(st, t) && x in st && (forall y :: y in st && st[y].path == st[x].path ==> y == x)
    ensures StoreIs(st - {x}, t - {st[x].path})
  {
    var u := st - {x};
    forall q | q in t - {st[x].path} ensures StoredAt(u, q) {
      assert StoredAt(st, q);
      var y :| y in st && st[y].path == q;
      assert u[y].path == q;
    }
  }

  lemma OnceAdd(acts: seq<Action>, a: Action, st: Store, t: Tree, x: nat, n: Node, u: Store)
    requires (forall y, z :: OnceAt(acts, st, y, z)) && StoreIs(st, t)
    requires a.obj.path in t ==> Below(a.obj.path, THUMBNAIL_FOLDER) && a.actor.Dst? && a.kind.Copy?
    requires u == st[x := Entry(a.obj.path, n)]
    ensures forall y, z :: OnceAt(acts + [a], u, y, z)
  {
    OnceSnoc(acts, a, st);
    NotCopiedSnoc(acts, a, a.obj.path);
    forall y, z ensures OnceAt(acts + [a], u, y, z) { assert OnceAt(acts + [a], st, y, z); }
  }

  /** A created object was not used before. */
  lemma NewObject(i: Inputs, c: Ctx, w: World, s: PState, n: nat, o: Obj)
    requires PlanActs(i, c, w, s) && n < |s.acts| && s.acts[n].actor.Dst? && !s.acts[n].kind.Remove?
    ensures Alive(i, s.acts[..n], o) || RemovedBefore(s.acts[..n], o) ==> o.id != s.acts[n].obj.id
  {
    hide CleanRun, FreshAt, Exec, Untouched, ParentAt, RemovedMade, DirFor, CopyFor, ThumbFor;
    var pre := s.acts[..n];
    assert ReasonAt(c, s.acts, n);
    if RemovedBefore(pre, o) {
      var j :| 0 <= j < |pre| && pre[j] == Action(Dst, Remove, o);
      assert PairOK(c, s.acts, j, n);
    }
    if MadeIn(pre, o) {
      var j :| 0 <= j < |pre| && Makes(pre[j], o);
      assert PairOK(c, s.acts, j, n);
    }
  }

  /** What the plan made is told from what was enumerated by its identity. */
  lemma MadeIsNew(i: Inputs, c: Ctx, w: World, s: PState, n: nat, o: Obj)
    requires PlanActs(i, c, w, s) && n <= |s.acts|
    ensures MadeIn(s.acts[..n], o) ==> o.id >= i.next
    ensures o.path in i.dst && o == i.dst[o.path] ==> o.id < i.next
  {
    hide CleanRun, FreshAt, Exec, Untouched, ParentAt, RemovedMade, DirFor, CopyFor, ThumbFor;
    var pre := s.acts[..n];
    if MadeIn(pre, o) {
      var j :| 0 <= j < |pre| && Makes(pre[j], o);
      assert ReasonAt(c, s.acts, j) && pre[j] == s.acts[j];
    }
  }

  /** Two objects that are there and have one identity are the same. */
  lemma AliveSame(i: Inputs, c: Ctx, w: World, s: PState, n: nat, o: Obj, q: Obj)
    requires PlanActs(i, c, w, s) && n <= |s.acts| && Alive(i, s.acts[..n], o) && Alive(i, s.acts[..n], q)
    requires o.id == q.id
    ensures o == q
  {
    hide CleanRun, FreshAt, Exec, Untouched, ParentAt, RemovedMade, Reasons;
    var pre := s.acts[..n];
    MadeIsNew(i, c, w, s, n, o);
    MadeIsNew(i, c, w, s, n, q);
    if MadeIn(pre, o) && MadeIn(pre, q) {
      var j :| 0 <= j < |pre| && Makes(pre[j], o);
      var k :| 0 <= k < |pre| && Makes(pre[k], q);
      assert PairOK(c, s.acts, j, k) && PairOK(c, s.acts, k, j) && pre[k] == s.acts[k] && pre[j] == s.acts[j];
    }
  }

  /** Directories of the device are never removed. */
  lemma DirStays(c: Ctx, acts: seq<Action>, n: nat, o: Obj)
    requires Reasons(c, acts) && n <= |acts| && o.dir
    ensures !RemovedBefore(acts[..n], o)
  {
    hide DirFor, CopyFor, ThumbFor;
    forall j | 0 <= j < n ensures acts[..n][j] != Action(Dst, Remove, o) { assert ReasonAt(c, acts, j); }
  }

  /** A directory of the final map that is enumerated or made before is held by the device. */
  lemma FolderHeld(i: Inputs, c: Ctx, w: World, s: PState, ids: seq<nat>, n: nat, m: Mtp, d: string)
    requires n < |s.acts| && PlanActs(i, c, w, s) && Bound(i, w, s.acts, ids, n, m) && ParentKnown(c, s, d, n)
    ensures Held(m, s.dst[d].id).Some? && m.store[Held(m, s.dst[d].id).value].path == d
  {
    hide CleanRun, FreshAt, Exec, Untouched, ParentAt, StoreIs, DirFor, CopyFor, ThumbFor;
    var pre, o := s.acts[..n], s.dst[d];
    DirStays(c, s.acts, n, o);
    if !Original(c, s, d) {
      var j :| 0 <= j < n && j < |s.acts| && s.acts[j] == Action(Dst, MkDir, o);
      assert Makes(pre[j], o);
    }
    assert Alive(i, pre, o);
    assert AliveHeld(i, pre, m, o);
  }

  /** The holder of the target is enumerated as a directory. */
  lemma HolderIs(i: Inputs, w: World)
    requires WorldOK(i.cfg, w) && ViewsOK(i, w) && HolderListed(i) && Dir(i.cfg.target) != "."
    ensures Dir(i.cfg.target) in i.dst && i.dst[Dir(i.cfg.target)].dir
  {
    hide Dir;
    assert DeviceObjectAt(i.cfg, i.dst, w.device, Dir(i.cfg.target));
  }

  /** The parent of a created object is known, unless its path has one component. */
  lemma ParentIsKnown(i: Inputs, c: Ctx, w: World, s: PState, n: nat)
    requires PlanActs(i, c, w, s) && n < |s.acts| && s.acts[n].actor.Dst? && !s.acts[n].kind.Remove?
    requires Dir(i.cfg.target) != "." ==> Dir(i.cfg.target) in i.dst && i.dst[Dir(i.cfg.target)].dir
    ensures Dir(s.acts[n].obj.path) != "." <==> ParentKnown(c, s, Dir(s.acts[n].obj.path), n)
    ensures Dir(s.acts[n].obj.path) == "." ==> s.acts[n].obj.path == i.cfg.target
  {
    hide CleanRun, FreshAt, Exec, Dir, SharesOnlyReplaced, Reasons;
    assert ParentAt(c, s, n);
  }

  /** One path component leads to a parent that no map has. */
  lemma NoParent(i: Inputs, c: Ctx, w: World, s: PState, n: nat, m: Mtp)
    requires PlanActs(i, c, w, s) && n < |s.acts| && s.acts[n].actor.Dst? && !s.acts[n].kind.Remove?
    requires Dir(s.acts[n].obj.path) == "."
    ensures !CanCall(s.dst, m, s.acts[n])
  {
    hide CleanRun, FreshAt, Exec, Dir, SharesOnlyReplaced, Reasons, Parents, Untouched;
  }

  lemma NewEntryPath(c: Ctx, acts: seq<Action>, n: nat)
    requires n < |acts| && ReasonAt(c, acts, n) && acts[n].actor.Dst? && !acts[n].kind.Remove?
    requires RelClean(acts[n].obj.path) && Dir(acts[n].obj.path) != "."
    ensures At(Dir(acts[n].obj.path), acts[n].obj.name) == acts[n].obj.path
  {
    hide DirFor, CopyFor, ThumbFor;
    RelCleanDir(acts[n].obj.path);
  }

  /** What a created object leaves, in terms of the planned run. */
  lemma MadeWhere(i: Inputs, c: Ctx, w: World, s: PState, n: nat)
    requires PlanActs(i, c, w, s) && n < |s.acts| && s.acts[n].actor.Dst? && !s.acts[n].kind.Remove?
    ensures var v, a := Exec(w, s.acts[..n]).world, s.acts[n];
            var p := a.obj.path;
            && CanStep(v, a) && !v.mail && RelClean(p) && (a.kind.Copy? ==> Readable(v, a.obj.from))
            && Step(v, a) == v.(device :=
               v.device[p := if a.kind.MkDir? then Directory else HostFile(v, a.obj.from).value])
            && (p in v.device ==>
               a.kind.Copy? && Below(p, THUMBNAIL_FOLDER) && v.device[p] == HostFile(v, a.obj.from).value)
            && (Dir(p) == "." || (Dir(p) in v.device && v.device[Dir(p)].Directory?))
  {
    hide RelClean, Dir, SharesOnlyReplaced, Reasons, Parents, Untouched;
    PlannedStep(w, s.acts, n);
    assert CleanAt(w, s.acts, n) && FreshAt(c, s.acts, n);
    assert DeviceAt(Exec(w, s.acts[..n]).world.device, s.acts[n].obj.path);
  }

  lemma CallIs(ois: OIS, m: Mtp, a: Action, id: nat, d: string, p: string)
    requires a.actor.Dst? && !a.kind.Remove? && CanCall(ois, m, a) && a.obj.path == p && At(d, a.obj.name) == p
    requires d == Dir(p) && d in ois && d != "" && m.store[Held(m, ois[d].id).value].path == d
    ensures Call(ois, m, a, id)
              == m.(store := m.store[id :=
              Entry(p, if a.kind.MkDir? then Directory else HostFile(m.host, a.obj.from).value)],
                                      oids := m.oids[a.obj.id := id])
  {
    hide Dir;
  }

  lemma MakeCan(ois: OIS, m: Mtp, a: Action, v: World, w: World, d: string)
    requires a.actor.Dst? && !a.kind.Remove? && m.host == v.(device := w.device)
    requires (a.kind.Copy? ==> Readable(v, a.obj.from))
    requires d == Dir(a.obj.path) && d in ois && d != "" && Held(m, ois[d].id).Some?
    requires m.store[Held(m, ois[d].id).value].node.Directory?
    ensures CanCall(ois, m, a)
  {
    hide Dir;
  }

  lemma FolderNode(st: Store, t: Tree, x: nat, d: string)
    requires StoreIs(st, t) && x in st && st[x].path == d && d in t && t[d].Directory?
    ensures st[x].node.Directory?
  {
  }

  /** What the device is to hold at the path of a created object. */
  function NewNode(m: Mtp, a: Action): Node
    requires !a.kind.MkDir? ==> HostFile(m.host, a.obj.from).Some?
  {
    if a.kind.MkDir? then Directory else HostFile(m.host, a.obj.from).value
  }

  /** Creating an object: the folder is there, and the device holds the new object at its path. */
  lemma MakeIs(i: Inputs, c: Ctx, w: World, s: PState, ids: seq<nat>, n: nat, m: Mtp)
    requires PlanActs(i, c, w, s) && n < |s.acts| && |s.acts| <= |ids| && Bound(i, w, s.acts, ids, n, m)
    requires s.acts[n].actor.Dst? && !s.acts[n].kind.Remove? && ParentKnown(c, s, Dir(s.acts[n].obj.path), n)
    ensures var a := s.acts[n];
            && CanCall(s.dst, m, a) && (!a.kind.MkDir? ==> HostFile(m.host, a.obj.from).Some?)
            && Call(s.dst, m, a, ids[n])
               == m.(store := m.store[ids[n] := Entry(a.obj.path, NewNode(m, a))], oids := m.oids[a.obj.id := ids[n]])
  {
    hide PlanActs, Exec, Dir, Step, CanStep, RelClean, OnceAt, AliveHeld, DeadGone, OneId, StoreIs;
    var a := s.acts[n];
    var p, v := a.obj.path, Exec(w, s.acts[..n]).world;
    var d := Dir(p);
    MadeWhere(i, c, w, s, n);
    FolderHeld(i, c, w, s, ids, n, m, d);
    assert d != "." && d in s.dst && d != "" by { KnownParent(i, c, w, s, n, d); }
    var x := Held(m, s.dst[d].id).value;
    FolderNode(m.store, v.device, x, d);
    MakeCan(s.dst, m, a, v, w, d);
    assert ReasonAt(c, s.acts, n) by { PlanReason(i, c, w, s, n); }
    NewEntryPath(c, s.acts, n);
    CallIs(s.dst, m, a, ids[n], d, p);
  }

  lemma BoundMake(i: Inputs, c: Ctx, w: World, s: PState, ids: seq<nat>, n: nat, m: Mtp)
    requires PlanActs(i, c, w, s) && n < |s.acts| && |s.acts| <= |ids| && Bound(i, w, s.acts, ids, n, m)
    requires s.acts[n].actor.Dst? && !s.acts[n].kind.Remove? && ParentKnown(c, s, Dir(s.acts[n].obj.path), n)
    ensures CanCall(s.dst, m, s.acts[n]) && Bound(i, w, s.acts, ids, n + 1, Call(s.dst, m, s.acts[n], ids[n]))
  {
    hide PlanActs, Bound, Dir, CanCall, Call, ParentKnown;
    MakeIs(i, c, w, s, ids, n, m);
    BoundAdd(i, c, w, s, ids, n, m, NewNode(m, s.acts[n]));
  }

  lemma KnownParent(i: Inputs, c: Ctx, w: World, s: PState, n: nat, d: string)
    requires PlanActs(i, c, w, s) && n < |s.acts| && ParentKnown(c, s, d, n) && d == Dir(s.acts[n].obj.path)
    requires RelClean(s.acts[n].obj.path)
    ensures d != "." && d in s.dst && d != ""
  {
    hide CleanRun, FreshAt, Exec, SharesOnlyReplaced, Reasons, Parents, Untouched;
    RelCleanDir(s.acts[n].obj.path);
    if d != "." { RelCleanEnds(d); }
  }

  lemma PlanReason(i: Inputs, c: Ctx, w: World, s: PState, n: nat)
    requires PlanActs(i, c, w, s) && n < |s.acts|
    ensures ReasonAt(c, s.acts, n)
  {
    hide CleanRun, FreshAt, Exec, SharesOnlyReplaced, ReasonAt, Parents, Untouched;
  }

  lemma BoundAdd(i: Inputs, c: Ctx, w: World, s: PState, ids: seq<nat>, n: nat, m: Mtp, node: Node)
    requires PlanActs(i, c, w, s) && n < |s.acts| && |s.acts| <= |ids| && Bound(i, w, s.acts, ids, n, m)
    requires s.acts[n].actor.Dst? && !s.acts[n].kind.Remove?
    requires s.acts[n].kind.Copy? ==> HostFile(m.host, s.acts[n].obj.from) == Some(node)
    requires s.acts[n].kind.MkDir? ==> node == Directory
    ensures Bound(i, w, s.acts, ids, n + 1,
              m.(store := m.store[ids[n] := Entry(s.acts[n].obj.path, node)],
                  oids := m.oids[s.acts[n].obj.id := ids[n]]))
  {
    hide PlanActs, Exec, Dir, CanStep, RelClean, StoreIs, Alive;
    var a, pre := s.acts[n], s.acts[..n];
    var p, v, x := a.obj.path, Exec(w, pre).world, ids[n];
    var t := m.(store := m.store[x := Entry(p, node)], oids := m.oids[a.obj.id := x]);
    MadeWhere(i, c, w, s, n);
    assert s.acts[..n + 1] == pre + [a];
    assert Exec(w, pre + [a]).world == Step(v, a) by { NextWorld(i, c, w, s, n); }
    hide Step;
    assert HostFile(m.host, a.obj.from) == HostFile(v, a.obj.from);
    StoreAdd(m.store, v.device, x, p, node);
    OnceAdd(pre, a, m.store, v.device, x, node, t.store);
    forall o ensures AliveHeld(i, pre + [a], t, o) && DeadGone(pre + [a], t, o) {
      assert AliveHeld(i, pre, m, o) && DeadGone(pre, m, o);
      NewObject(i, c, w, s, n, o);
      RemovedSnoc1(pre, a, o);
      AliveNext(i, pre, a, o);
    }
    forall y, z ensures OneId(t.oids, y, z) { assert OneId(m.oids, y, z); }
  }

  lemma NextWorld(i: Inputs, c: Ctx, w: World, s: PState, n: nat)
    requires PlanActs(i, c, w, s) && n < |s.acts|
    ensures CanStep(Exec(w, s.acts[..n]).world, s.acts[n]) && !Exec(w, s.acts[..n]).world.mail
    ensures Exec(w, s.acts[..n] + [s.acts[n]]).world == Step(Exec(w, s.acts[..n]).world, s.acts[n])
  {
    hide Exec, SharesOnlyReplaced, Reasons, FreshCopies, Parents, Untouched, Step, CanStep;
    PlannedStep(w, s.acts, n);
    assert s.acts[..n + 1] == s.acts[..n] + [s.acts[n]];
  }

  /** What is there after one more action was there before, or the action made it. */
  lemma AliveNext(i: Inputs, acts: seq<Action>, a: Action, o: Obj)
    ensures Alive(i, acts + [a], o) ==> (Alive(i, acts, o) || Makes(a, o)) && a != Action(Dst, Remove, o)
  {
    hide RemovedBefore, MadeIn;
    RemovedSnoc1(acts, a, o);
    MadeSnoc1(acts, a, o);
  }

  // ---------------------------------------------------------------------------------- removals

  /** An object that is removed is enumerated or was made. */
  lemma RemovedKnown(i: Inputs, c: Ctx, w: World, s: PState, n: nat)
    requires PlanActs(i, c, w, s) && n < |s.acts| && Removes(s.acts[n])
    ensures Alive(i, s.acts[..n], s.acts[n].obj) <==> !RemovedBefore(s.acts[..n], s.acts[n].obj)
  {
    hide CleanRun, FreshAt, Exec, Untouched, ParentAt, DirFor, CopyFor, ThumbFor, RemovedBefore;
    var o := s.acts[n].obj;
    assert ReasonAt(c, s.acts, n) && RemovedMade(c, s.acts, n);
    if o.id >= i.next {
      var j :| 0 <= j < n && s.acts[j] == Action(Dst, Copy, o);
      assert Makes(s.acts[..n][j], o);
    }
  }

  /** The object that is removed is the only one at its path. */
  lemma OnlyEntry(i: Inputs, c: Ctx, w: World, s: PState, ids: seq<nat>, n: nat, m: Mtp, x: nat)
    requires PlanActs(i, c, w, s) && n < |s.acts| && Bound(i, w, s.acts, ids, n, m) && Removes(s.acts[n])
    requires !RemovedBefore(s.acts[..n], s.acts[n].obj) && x in m.store && m.store[x].path == s.acts[n].obj.path
    ensures forall y :: y in m.store && m.store[y].path == m.store[x].path ==> y == x
  {
    hide CleanRun, FreshAt, Exec, Untouched, ParentAt, DirFor, CopyFor, ThumbFor, RemovedBefore, RemovedMade, StoreIs,
         AliveHeld, DeadGone, Below;
    var pre, p := s.acts[..n], s.acts[n].obj.path;
    assert ReasonAt(c, s.acts, n);
    if Below(p, THUMBNAIL_FOLDER) {
      forall j | 0 <= j < |pre| ensures !Is(pre[j], Dst, Copy, p) {
        assert PairOK(c, s.acts, j, n) && pre[j] == s.acts[j];
      }
    }
    forall y | y in m.store && m.store[y].path == p ensures y == x { assert OnceAt(pre, m.store, x, y); }
  }

  /** Removing an object that the device holds. */
  lemma BoundRemove(i: Inputs, c: Ctx, w: World, s: PState, ids: seq<nat>, n: nat, m: Mtp)
    requires PlanActs(i, c, w, s) && n < |s.acts| && Bound(i, w, s.acts, ids, n, m) && Removes(s.acts[n])
    requires !RemovedBefore(s.acts[..n], s.acts[n].obj)
    ensures CanCall(s.dst, m, s.acts[n])
    ensures Bound(i, w, s.acts, ids, n + 1, m.(store := m.store - {m.oids[s.acts[n].obj.id]}))
  {
    hide PlanActs, Exec, Dir, CanStep, RelClean, StoreIs, Alive, RemovedBefore;
    var a, pre := s.acts[n], s.acts[..n];
    RemovedKnown(i, c, w, s, n);
    assert AliveHeld(i, pre, m, a.obj);
    var x := m.oids[a.obj.id];
    OnlyEntry(i, c, w, s, ids, n, m, x);
    StoreRemove(m.store, Exec(w, pre).world.device, x);
    NextWorld(i, c, w, s, n);
    RemoveStep(Exec(w, pre).world, a);
    hide Step;
    assert s.acts[..n + 1] == pre + [a];
    var t := m.(store := m.store - {x});
    OnceSnoc(pre, a, m.store);
    forall y, z ensures OnceAt(pre + [a], t.store, y, z) { assert OnceAt(pre + [a], m.store, y, z); }
    forall o ensures AliveHeld(i, pre + [a], t, o) && DeadGone(pre + [a], t, o) {
      assert AliveHeld(i, pre, m, o) && DeadGone(pre, m, o);
      RemovedSnoc1(pre, a, o);
      AliveNext(i, pre, a, o);
      if Alive(i, pre + [a], o) {
        assert OneId(m.oids, o.id, a.obj.id);
        if o.id == a.obj.id { AliveSame(i, c, w, s, n, o, a.obj); }
      }
    }
  }

  lemma RemoveStep(v: World, a: Action)
    requires CanStep(v, a) && Removes(a) && !v.mail
    ensures Step(v, a) == v.(device := v.device - {a.obj.path})
  {
  }

  /** The second removal of an object is refused. */
  lemma RemoveRefused(i: Inputs, w: World, acts: seq<Action>, ids: seq<nat>, ois: OIS, n: nat, m: Mtp)
    requires n < |acts| && Bound(i, w, acts, ids, n, m) && Removes(acts[n]) && RemovedBefore(acts[..n], acts[n].obj)
    ensures !CanCall(ois, m, acts[n])
  {
    hide Exec, StoreIs, AliveHeld, OnceAt;
    assert DeadGone(acts[..n], m, acts[n].obj);
  }

  // ---------------------------------------------------------------------------------- the run

  /** The actions that an MTP device or its driver refuses: creating what has no parent in the map, and removing what is
      removed. */
  ghost predicate FailsAt(acts: seq<Action>, n: int) {
    0 <= n < |acts| && acts[n].actor.Dst? && if acts[n].kind.Remove? then RemovedBefore(acts[..n], acts[n].obj)
        else Dir(acts[n].obj.path) == "."
  }

  ghost predicate RefusesRemoval(acts: seq<Action>, n: int) {
    FailsAt(acts, n) && acts[n].kind.Remove?
  }

  ghost predicate HolderKnown(i: Inputs) {
    Dir(i.cfg.target) != "." ==> Dir(i.cfg.target) in i.dst && i.dst[Dir(i.cfg.target)].dir
  }

  lemma BoundStep(i: Inputs, c: Ctx, w: World, s: PState, ids: seq<nat>, n: nat, m: Mtp)
    requires PlanActs(i, c, w, s) && n < |s.acts| && |s.acts| <= |ids| && Bound(i, w, s.acts, ids, n, m)
    requires HolderKnown(i)
    ensures CanCall(s.dst, m, s.acts[n]) <==> !FailsAt(s.acts, n)
    ensures CanCall(s.dst, m, s.acts[n]) ==> Bound(i, w, s.acts, ids, n + 1, Call(s.dst, m, s.acts[n], ids[n]))
  {
    hide PlanActs, Bound, Dir, RemovedBefore, ParentKnown, CanStep, Step, HasFolder, Created;
    var a := s.acts[n];
    if a.actor.Src? {
      assert CleanRun(w, s.acts) by { PlanClean(i, c, w, s); }
      BoundLocal(i, w, s.acts, ids, n, m);
    } else if a.kind.Remove? {
      if RemovedBefore(s.acts[..n], a.obj) {
        RemoveRefused(i, w, s.acts, ids, s.dst, n, m);
      } else {
        BoundRemove(i, c, w, s, ids, n, m);
      }
    } else {
      ParentIsKnown(i, c, w, s, n);
      if Dir(a.obj.path) == "." { NoParent(i, c, w, s, n, m); } else { BoundMake(i, c, w, s, ids, n, m); }
    }
  }

  lemma PlanClean(i: Inputs, c: Ctx, w: World, s: PState)
    requires PlanActs(i, c, w, s)
    ensures CleanRun(w, s.acts) && i.dst.Keys <= w.device.Keys
  {
  }

  lemma {:induction false} MtpFollows(i: Inputs, c: Ctx, w: World, s: PState, m: Mtp, ids: seq<nat>, n: nat)
    requires PlanActs(i, c, w, s) && n <= |s.acts| <= |ids| && Bound(i, w, s.acts, ids, 0, m) && HolderKnown(i)
    requires forall j :: 0 <= j < n ==> !FailsAt(s.acts, j)
    ensures var r := MtpExec(s.dst, m, s.acts[..n], ids); !r.failed && r.done == n && Bound(i, w, s.acts, ids, n, r.mtp)
    decreases n
  {
    hide PlanActs, Bound, FailsAt, CanCall, Call;
    if n == 0 {
      assert s.acts[..0] == [];
    } else {
      assert s.acts[..n][..n - 1] == s.acts[..n - 1];
      MtpFollows(i, c, w, s, m, ids, n - 1);
      BoundStep(i, c, w, s, ids, n - 1, MtpExec(s.dst, m, s.acts[..n - 1], ids).mtp);
    }
  }

  lemma {:induction false} FirstFail(acts: seq<Action>, n: nat) returns (k: nat)
    requires FailsAt(acts, n)
    ensures FailsAt(acts, k) && k < |acts| && forall j :: 0 <= j < k ==> !FailsAt(acts, j)
    decreases n
  {
    FailsInside(acts, n);
    hide FailsAt;
    if j :| 0 <= j < n && FailsAt(acts, j) { k := FirstFail(acts, j); } else { k := n; }
  }

  lemma EndedActs(i: Inputs, b: Subsets, s: PState, w: World)
    requires RunOK(i, b, w) && IsPlan(i, b, s)
    ensures PlanActs(i, CtxFor(i, b, w), w, s)
  {
    hide RunOK, IsPlan, Ended, Exec, Reasons, FreshCopies, SharesOnlyReplaced, Parents, CtxFor, CleanAt, Untouched,
         OwnObjects;
    var c := CtxFor(i, b, w);
    PlanEnds(i, b, s, w);
    EndedHasObjects(i, b, w, s);
    CtxInputs(i, b, w);
    PlanCleanRun(i, b, s, w);
    EndedMirror(i, b, w, s);
    DeviceMode(i, b, w);
    RunEnumerated(i, b, w);
    if "." in s.dst {
      CleanEnd(w, s.acts);
      NoDotPath(Exec(w, s.acts).world.device);
    }
  }

  lemma CleanEnd(w: World, acts: seq<Action>)
    requires CleanRun(w, acts)
    ensures DeviceTree(Exec(w, acts).world.device)
  {
    assert acts[..|acts|] == acts;
    assert CleanAt(w, acts, |acts|);
  }

  lemma NoDotPath(d: Tree)
    requires DeviceTree(d)
    ensures "." !in d
  {
    hide RelClean;
    assert DeviceAt(d, ".");
    DotNotClean();
  }

  lemma RunEnumerated(i: Inputs, b: Subsets, w: World)
    requires RunOK(i, b, w)
    ensures OwnObjects(i) && forall p :: p in i.dst ==> i.dst[p].path == p
  {
    hide WorldOK, LocalView, HistoryView, OwnObjects, NoRawKeys, IsSubsets;
    forall p | p in i.dst ensures i.dst[p].path == p { assert DeviceObjectAt(i.cfg, i.dst, w.device, p); }
  }

  lemma EndedMirror(i: Inputs, b: Subsets, w: World, s: PState)
    requires Ended(i, b, w, s)
    ensures KeyedMirror(s) && Untouched(CtxFor(i, b, w), s) && s.dst.Keys <= Exec(w, s.acts).world.device.Keys
  {
    hide CtxOK, Reasons, Objects, SimLocal, FreshCopies, Untouched, DirsAreDirs, ThumbsSeen, BaseOK, DeviceForm,
         LocalInv, RemovedSet, JobRels, JobNames, Row7, ThumbPaths, Exec, Parents, Device6Tree;
    assert SimDevice(CtxFor(i, b, w), s, Now(CtxFor(i, b, w), s));
  }

  // ---------------------------------------------------------------------------------- when it is refused

  /** A missing target of one component is to be made. */
  ghost predicate RootTargetMade(i: Inputs, w: World) {
    Row3(i) != {} && i.cfg.target !in w.device && Dir(i.cfg.target) == "."
  }

  lemma SomeRel(i: Inputs, b: Subsets, w: World)
    requires RunOK(i, b, w)
    ensures DirFor(i.cfg, CtxFor(i, b, w).rels, i.cfg.target) <==> Row3(i) != {}
  {
    hide RunOK, Row3, LocalBooks, Remaining, VictimOf, Supplements, ThumbPaths, JobNames, Row7, Row6;
    var c := CtxFor(i, b, w);
    if k :| k in Row3(i) {
      RemainingFiles(i);
      Row3Entry(i, b, w, Remaining(i), k);
      VictimSelf(i.cfg.source, k);
      assert At(i.cfg.source, k) in RemovedSet(Remaining(i), i.cfg.source, Row3(i));
      assert k in c.rels;
      assert Below(At(i.cfg.target, k), i.cfg.target);
    }
  }

  lemma VictimSelf(root: string, k: string)
    ensures VictimOf(root, k, At(root, k))
  {
  }

  lemma TargetMade(i: Inputs, b: Subsets, s: PState, w: World)
    requires RunOK(i, b, w) && IsPlan(i, b, s) && RootTargetMade(i, w)
    ensures exists n :: FailsAt(s.acts, n) && !RefusesRemoval(s.acts, n)
  {
    hide RunOK, IsPlan, Row3, CtxFor, DirFor, Dir, Count, RemovedBefore;
    DirectoriesMadeOnce(i, b, s, w, i.cfg.target);
    SomeRel(i, b, w);
    var n := FindOne(s.acts, MkDir, i.cfg.target);
    assert FailsAt(s.acts, n) && !RefusesRemoval(s.acts, n);
  }

  lemma RootMade(i: Inputs, b: Subsets, s: PState, w: World, n: nat)
    requires RunOK(i, b, w) && IsPlan(i, b, s) && HolderKnown(i) && FailsAt(s.acts, n) && !RefusesRemoval(s.acts, n)
    ensures RootTargetMade(i, w)
  {
    hide RunOK, IsPlan, Row3, CtxFor, DirFor, Count, RemovedBefore, PlanActs, Dir;
    var c := CtxFor(i, b, w);
    CtxInputs(i, b, w);
    RunParts(i, b, w);
    EndedActs(i, b, s, w);
    ParentIsKnown(i, c, w, s, n);
    PlanReason(i, c, w, s, n);
    NotCopiedTarget(c, s.acts, n);
    CountOne(s.acts, Dst, MkDir, i.cfg.target, n);
    DirectoriesMadeOnce(i, b, s, w, i.cfg.target);
    SomeRel(i, b, w);
  }

  lemma NotCopiedTarget(c: Ctx, acts: seq<Action>, n: nat)
    requires n < |acts| && ReasonAt(c, acts, n) && acts[n].actor.Dst? && acts[n].obj.path == c.i.cfg.target
    requires ConfigOK(c.i.cfg) && !acts[n].kind.Remove?
    ensures acts[n].kind.MkDir?
  {
    hide DirFor, RelClean;
    ScopesApart(c.i.cfg, c.i.cfg.target);
  }

  /** The parent of what the action creates is in the final map, as an enumerated directory or one that was made
      before. */
  ghost predicate ParentFound(i: Inputs, s: PState, j: int) {
    0 <= j < |s.acts| && s.acts[j].actor.Dst? && !s.acts[j].kind.Remove? ==>
      var d := Dir(s.acts[j].obj.path);
      && d in s.dst && s.dst[d].dir
      && ((d in i.dst && s.dst[d] == i.dst[d]) || exists m :: 0 <= m < j && s.acts[m] == Action(Dst, MkDir, s.dst[d]))
  }

  lemma FoundIfKnown(i: Inputs, c: Ctx, w: World, s: PState, j: int)
    requires PlanActs(i, c, w, s) && HolderKnown(i)
    ensures ParentFound(i, s, j) <==> !FailsAt(s.acts, j) || s.acts[j].kind.Remove?
  {
    hide PlanActs, Dir, RemovedBefore;
    if 0 <= j < |s.acts| && s.acts[j].actor.Dst? && !s.acts[j].kind.Remove? {
      ParentIsKnown(i, c, w, s, j);
      if Dir(s.acts[j].obj.path) == "." { NoDotKey(i, c, w, s); } else { KnownFound(c, s, Dir(s.acts[j].obj.path), j); }
      assert c.i == i by { CtxOf(i, c, w, s); }
    }
  }

  lemma CtxOf(i: Inputs, c: Ctx, w: World, s: PState)
    requires PlanActs(i, c, w, s)
    ensures c.i == i
  {
  }

  lemma NoDotKey(i: Inputs, c: Ctx, w: World, s: PState)
    requires PlanActs(i, c, w, s)
    ensures "." !in s.dst
  {
  }

  lemma KnownFound(c: Ctx, s: PState, d: string, j: int)
    requires ParentKnown(c, s, d, j) && j < |s.acts|
    ensures d in s.dst && s.dst[d].dir
    ensures (|| (d in c.i.dst && s.dst[d] == c.i.dst[d])
             || exists m :: 0 <= m < j && s.acts[m] == Action(Dst, MkDir, s.dst[d]))
  {
  }

  /** A driver that resolves the parent of a created object at run time in the planner's final map finds it for every
      action, as an enumerated directory or one made by an earlier action, if and only if the plan has not to make a
      missing target of one component; and then that is the only action for which it finds none. */
  lemma ParentsResolve(i: Inputs, b: Subsets, s: PState, w: World)
    requires RunOK(i, b, w) && IsPlan(i, b, s) && HolderListed(i)
    ensures (forall j :: ParentFound(i, s, j)) <==> !RootTargetMade(i, w)
    ensures forall j :: 0 <= j < |s.acts| && s.acts[j].obj.path != i.cfg.target ==> ParentFound(i, s, j)
  {
    hide RunOK, IsPlan, Exec, PlanActs, RootTargetMade, CtxFor, Dir, RemovedBefore, ParentKnown, ParentFound;
    var c := CtxFor(i, b, w);
    EndedActs(i, b, s, w);
    RunParts(i, b, w);
    if Dir(i.cfg.target) != "." { HolderIs(i, w); }
    forall j ensures ParentFound(i, s, j) <==> !FailsAt(s.acts, j) || s.acts[j].kind.Remove? {
      FoundIfKnown(i, c, w, s, j);
    }
    forall j | 0 <= j < |s.acts| && s.acts[j].obj.path != i.cfg.target ensures ParentFound(i, s, j) {
      if s.acts[j].actor.Dst? && !s.acts[j].kind.Remove? { ParentIsKnown(i, c, w, s, j); }
    }
    if j :| !ParentFound(i, s, j) { RootMade(i, b, s, w, j); }
    if RootTargetMade(i, w) { TargetMade(i, b, s, w); }
  }

  /** A thumbnail is removed twice exactly when it is shared and stays known. */
  lemma RemovedAgain(i: Inputs, b: Subsets, s: PState, w: World)
    requires RunOK(i, b, w) && IsPlan(i, b, s)
    ensures (exists n :: RefusesRemoval(s.acts, n)) <==> SharedThumb(i)
  {
    hide RunOK, IsPlan, IsOrders, FinalState, SharedThumbBy, CtxFor, Count, Ended, Exec, Dir, EndedObjects,
         RemovedBefore, RefusesRemoval;
    var c := CtxFor(i, b, w);
    CtxInputs(i, b, w);
    var o := PlanOrders(i, b, s);
    PlanEnds(i, b, s, w);
    EndedHasObjects(i, b, w, s);
    if n :| RefusesRemoval(s.acts, n) {
      var p := AgainTwice(i, b, w, s, n);
      RemovedTwiceIsShared(i, b, o, w, Rel(p, THUMBNAIL_FOLDER));
    }
    if SharedThumb(i) {
      var j, k, t :| SharedThumbBy(i, j, k, t);
      SharedIsRemovedTwice(i, b, o, w, j, k, t);
      TwiceAgain(i, b, w, s, At(THUMBNAIL_FOLDER, t));
    }
  }

  lemma AgainTwice(i: Inputs, b: Subsets, w: World, s: PState, n: int) returns (p: string)
    requires EndedObjects(i, b, w, s) && RefusesRemoval(s.acts, n)
    ensures Below(p, THUMBNAIL_FOLDER) && At(THUMBNAIL_FOLDER, Rel(p, THUMBNAIL_FOLDER)) == p && RemoveCount(s, p) >= 2
  {
    hide Count, Exec, CtxFor, FreshCopies, Reasons, Parents, RemovedMade, Below;
    p := s.acts[n].obj.path;
    var m := SomeRemoval(s.acts[..n], s.acts[n].obj);
    assert PairOK(CtxFor(i, b, w), s.acts, m, n);
    CountAtLeast(s.acts, Remove, p, m, n);
    AtRel(p, THUMBNAIL_FOLDER);
  }

  lemma TwiceAgain(i: Inputs, b: Subsets, w: World, s: PState, p: string)
    requires EndedObjects(i, b, w, s) && RemoveCount(s, p) >= 2 && Below(p, THUMBNAIL_FOLDER)
    ensures exists n :: RefusesRemoval(s.acts, n)
  {
    hide Count, Exec, CtxFor, FreshCopies, SharesOnlyReplaced, Parents, Below, ReasonAt, Dir, RemovedBefore;
    var c := CtxFor(i, b, w);
    var j, k := FindTwo(s.acts, Remove, p);
    TwoRemovals(c, s.acts, j, k, p);
    assert RefusesRemoval(s.acts, k);
  }

  lemma TwoRemovals(c: Ctx, acts: seq<Action>, j: int, k: int, p: string)
    requires Reasons(c, acts) && 0 <= j < k < |acts| && Is(acts[j], Dst, Remove, p) && Is(acts[k], Dst, Remove, p)
    requires Below(p, THUMBNAIL_FOLDER)
    ensures RemovedBefore(acts[..k], acts[k].obj)
  {
    hide DirFor, CopyFor, ThumbFor, Below;
    assert ReasonAt(c, acts, j) && ReasonAt(c, acts, k);
    assert acts[..k][j] == Action(Dst, Remove, acts[k].obj);
  }

  /** Over an MTP device that holds each path once and gives new objects ids of their own, with the directory of the
      target enumerated: a plan is done to the end, and the device holds by its ids exactly what the plan predicts, if
      and only if it has not to make a missing target of one component, whose parent the driver finds in no map, and no
      two copied books share a thumbnail that stays known.  Otherwise the run does exactly what is planned before the
      first action that is refused, and stops there. */
  lemma MtpRun(i: Inputs, b: Subsets, s: PState, w: World, m: Mtp, ids: seq<nat>)
    requires RunOK(i, b, w) && IsPlan(i, b, s) && HolderListed(i)
    requires Plugged(i, w, m) && NewIds(m, ids) && |s.acts| <= |ids|
    ensures var r := MtpExec(s.dst, m, s.acts, ids);
            && r.mtp.host == Exec(w, s.acts[..r.done]).world.(device := w.device)
            && StoreIs(r.mtp.store, Exec(w, s.acts[..r.done]).world.device)
            && (r.failed <==> RootTargetMade(i, w) || SharedThumb(i))
            && (r.failed <==> r.done < |s.acts|)
  {
    hide RunOK, IsPlan, Exec, Plugged, NewIds, PlanActs, StoreIs, FailsAt, RootTargetMade, SharedThumb, CtxFor, Dir,
         MtpExec, CanCall, Call;
    var c := CtxFor(i, b, w);
    assert s.acts[..|s.acts|] == s.acts;
    EndedActs(i, b, s, w);
    PlanClean(i, c, w, s);
    BoundStart(i, w, s.acts, ids, m);
    RunParts(i, b, w);
    if Dir(i.cfg.target) != "." { HolderIs(i, w); }
    RemovedAgain(i, b, s, w);
    if n :| FailsAt(s.acts, n) {
      FailsInside(s.acts, n);
      if !RefusesRemoval(s.acts, n) { RootMade(i, b, s, w, n); }
      var k := FirstFail(s.acts, n);
      MtpFollows(i, c, w, s, m, ids, k);
      BoundStep(i, c, w, s, ids, k, MtpExec(s.dst, m, s.acts[..k], ids).mtp);
      MtpStops(s.dst, m, s.acts, ids, k);
    } else {
      forall n ensures !RefusesRemoval(s.acts, n) { RefusedFails(s.acts, n); }
      if RootTargetMade(i, w) { TargetMade(i, b, s, w); }
      MtpFollows(i, c, w, s, m, ids, |s.acts|);
    }
  }

  lemma RefusedFails(acts: seq<Action>, n: int)
    ensures RefusesRemoval(acts, n) ==> FailsAt(acts, n)
  {
  }

  lemma FailsInside(acts: seq<Action>, k: int)
    requires FailsAt(acts, k)
    ensures 0 <= k < |acts|
  {
  }
}
