/** mtp/device_linux.go: the driver on objects.  The device answers with an id for what it creates, the driver stores it
    in the object, and later calls find it there.  Local actions go to the source driver in between. */
module MtpDevice {
  import opened Paths
  import opened InfoSet
  import opened Plan
  import opened FileSystem
  import opened Setting
  import opened Sharing
  import opened Binding
  import opened Once

  /** An object of the planner; `oid` is 0 until the device has made it. */
  class ObjectInfo {
    const obj: Obj
    var oid: nat
    var oidParent: nat

    constructor (obj: Obj, oid: nat)
      ensures this.obj == obj && this.oid == oid && this.oidParent == 0
    {
      this.obj, this.oid, this.oidParent := obj, oid, 0;
    }
  }

  /** A call that makeAction wraps. */
  datatype Call = Call(actor: Actor, kind: Kind, info: ObjectInfo)

  function ActionOf(c: Call): Action { Action(c.actor, c.kind, c.info.obj) }

  function ActionsOf(calls: seq<Call>): (acts: seq<Action>)
    ensures |acts| == |calls| && forall j :: 0 <= j < |acts| ==> acts[j] == ActionOf(calls[j])
  {
    seq(|calls|, j requires 0 <= j < |calls| => ActionOf(calls[j]))
  }

  function MapOf(ois: map<string, ObjectInfo>): OIS { map p | p in ois :: ois[p].obj }

  /** The id that the device gave to an object, and 0 before. */
  function OidIn(id: nat, oids: map<nat, nat>): nat {
    if id in oids then oids[id] else 0
  }

  ghost predicate Agrees(all: set<ObjectInfo>, oids: map<nat, nat>)
    reads all
  {
    forall o :: o in all ==> o.oid == OidIn(o.obj.id, oids)
  }

  /** Objects are told apart by their identities. */
  ghost predicate OwnIds(all: set<ObjectInfo>) {
    forall o, q :: o in all && q in all && o.obj.id == q.obj.id ==> o == q
  }

  class Device {
    var host: World
    var store: Store

    constructor (host: World, store: Store)
      ensures this.host == host && this.store == store
    {
      this.host, this.store := host, store;
    }

    /** An action of the source driver. */
    method Local(c: Call) returns (ok: bool)
      requires c.actor.Src?
      modifies this`host
      ensures ok <==> CanStep(old(host), ActionOf(c))
      ensures host == if ok then Step(old(host), ActionOf(c)) else old(host)
    {
      ok := CanStep(host, ActionOf(c));
      if ok { host := Step(host, ActionOf(c)); }
    }

    /** Remove: the object is deleted by its id. */
    method Remove(info: ObjectInfo, ghost oids: map<nat, nat>) returns (ok: bool)
      requires info.oid == OidIn(info.obj.id, oids) && 0 !in store
      modifies this`store
      ensures ok <==> Held(Mtp(host, old(store), oids), info.obj.id).Some?
      ensures store == if ok then old(store) - {info.oid} else old(store)
    {
      if info.oid !in store { return false; }
      store := store - {info.oid};
      return true;
    }

    /** MkDir and Copy: the parent is looked up in the map when the call runs.  The device makes the object in the
        folder with the id of the parent, and refuses if it has no such folder. */
    method Create(kind: Kind, ois: map<string, ObjectInfo>, info: ObjectInfo, id: nat, ghost oids: map<nat,
                  nat>) returns (ok: bool)
      requires !kind.Remove? && 0 !in store && (forall p :: p in ois ==> ois[p].oid == OidIn(ois[p].obj.id, oids))
      modifies this`store, info
      ensures var m, a := Mtp(host, old(store), oids), Action(Dst, kind, info.obj);
              && (ok <==> CanCall(MapOf(ois), m, a))
              && store == (if ok then Binding.Call(MapOf(ois), m, a, id).store else old(store))
      ensures info.oid == if ok then id else old(info.oid)
      ensures Dir(info.obj.path) in ois && Dir(info.obj.path) != "" ==>
                info.oidParent == old(ois[Dir(info.obj.path)].oid)
    {
      hide Dir;
      var d := Dir(info.obj.path);
      if d == "" || d !in ois { return false; }
      info.oidParent := ois[d].oid;
      if info.oidParent !in store || !store[info.oidParent].node.Directory? { return false; }
      if kind.Copy? && !Readable(host, info.obj.from) { return false; }
      var node := if kind.MkDir? then Directory else HostFile(host, info.obj.from).value;
      store := store[id := Entry(At(store[info.oidParent].path, info.obj.name), node)];
      info.oid := id;
      return true;
    }

    method Do(c: Call, ois: map<string, ObjectInfo>, id: nat, ghost oids: map<nat, nat>) returns (ok: bool)
      requires c.info.oid == OidIn(c.info.obj.id, oids) && 0 !in store
      requires (forall p :: p in ois ==> ois[p].oid == OidIn(ois[p].obj.id, oids))
      modifies this, c.info
      ensures var m := Mtp(old(host), old(store), oids);
              && (ok <==> CanCall(MapOf(ois), m, ActionOf(c)))
              && (ok ==>
                 host == Binding.Call(MapOf(ois), m, ActionOf(c), id).host
                 && store == Binding.Call(MapOf(ois), m, ActionOf(c), id).store)
              && (!ok ==> host == old(host) && store == old(store))
      ensures c.info.oid == if ok && c.actor.Dst? && !c.kind.Remove? then id else old(c.info.oid)
    {
      hide CanStep, Step, HasFolder;
      match c.actor
      case Src => ok := Local(c);
      case Dst =>
        if c.kind.Remove? {
          ok := Remove(c.info, oids);
        } else {
          ok := Create(c.kind, ois, c.info, id, oids);
        }
    }

    /** The calls of a plan in order, until one fails: it is the run of module Binding. */
    method Run(calls: seq<Call>, ois: map<string, ObjectInfo>, ids: seq<nat>, ghost all: set<ObjectInfo>,
               ghost oids: map<nat, nat>)
      returns (ok: bool, n: nat)
      requires |calls| <= |ids| && OwnIds(all) && Agrees(all, oids)
      requires (forall p :: p in ois ==> ois[p] in all) && forall c :: c in calls ==> c.info in all
      requires 0 !in store && forall j :: 0 <= j < |ids| ==> ids[j] != 0
      modifies this, all
      ensures var r := MtpExec(MapOf(ois), Mtp(old(host), old(store), oids), ActionsOf(calls), ids);
              && (ok <==> !r.failed) && n == r.done && host == r.mtp.host && store == r.mtp.store
                 && Agrees(all, r.mtp.oids)
      ensures 0 !in store
    {
      hide CanCall, Binding.Call, MtpExec, OwnIds, OidIn, ActionOf;
      ghost var acts, m := ActionsOf(calls), Mtp(host, store, oids);
      NoCalls(MapOf(ois), m, acts, ids);
      n := 0;
      while n < |calls|
        invariant n <= |calls| && 0 !in store
        invariant var r := MtpExec(MapOf(ois), m, acts[..n], ids);
                  !r.failed && r.done == n && r.mtp == Mtp(host, store, r.mtp.oids) && Agrees(all, r.mtp.oids)
      {
        var c := calls[n];
        ghost var t := MtpExec(MapOf(ois), m, acts[..n], ids).mtp;
        assert c in calls;
        NextCall(MapOf(ois), m, acts, ids, n);
        ok := Do(c, ois, ids[n], t.oids);
        if !ok { return; }
        assert acts[n].actor == c.actor && acts[n].kind == c.kind && acts[n].obj == c.info.obj by { ActionIs(c); }
        CallOids(MapOf(ois), t, acts[n], ids[n]);
        forall o | o in all
          ensures OidIn(o.obj.id, t.oids[c.info.obj.id := ids[n]])
                  == if o == c.info then ids[n] else OidIn(o.obj.id, t.oids)
        {
          OidAfter(all, o, c.info, t.oids, ids[n]);
        }
        n := n + 1;
      }
      assert acts[..n] == acts;
      ok := true;
    }

    /** A plan run over an MTP device, with the map of the planner as it is in the end: all calls are done exactly
        when no missing target of one component is to be made and no two copied books share a thumbnail that stays
        known, and what the device holds is what the plan predicts for the calls that are done.  It holds each path
        once, as the next run needs it, exactly when no call that is done copies over a file. */
    method RunPlan(calls: seq<Call>, ois: map<string, ObjectInfo>, ids: seq<nat>, ghost all: set<ObjectInfo>,
                   ghost oids: map<nat, nat>,
                   ghost i: Inputs, ghost b: Subsets, ghost s: PState, ghost w: World)
      returns (ok: bool, n: nat)
      requires |calls| <= |ids| && OwnIds(all) && Agrees(all, oids)
      requires (forall p :: p in ois ==> ois[p] in all) && forall c :: c in calls ==> c.info in all
      requires 0 !in store && forall j :: 0 <= j < |ids| ==> ids[j] != 0
      requires RunOK(i, b, w) && IsPlan(i, b, s) && HolderListed(i) && ActionsOf(calls) == s.acts && MapOf(ois) == s.dst
      requires Plugged(i, w, Mtp(host, store, oids)) && NewIds(Mtp(host, store, oids), ids)
      modifies this, all
      ensures n <= |calls| && (ok <==> n == |calls|) && (ok <==> !RootTargetMade(i, w) && !SharedThumb(i))
      ensures StoreIs(store, Exec(w, s.acts[..n]).world.device)
      ensures host == Exec(w, s.acts[..n]).world.(device := w.device) && 0 !in store
      ensures EachOnce(store) <==> NoneOver(w, s.acts[..n])
      ensures ok ==> (EachOnce(store) <==> !DoubledThumb(i))
    {
      hide RunOK, IsPlan, Plugged, NewIds, RootTargetMade, SharedThumb, StoreIs, Exec, MtpExec, HolderListed, OwnIds,
           Agrees, EachOnce, NoneOver, DoubledThumb;
      MtpRun(i, b, s, w, Mtp(host, store, oids), ids);
      OnceAfterRun(i, b, s, w, Mtp(host, store, oids), ids);
      ok, n := Run(calls, ois, ids, all, oids);
    }
  }

  lemma ActionIs(c: Call)
    ensures ActionOf(c).actor == c.actor && ActionOf(c).kind == c.kind && ActionOf(c).obj == c.info.obj
  {
  }

  lemma OidAfter(all: set<ObjectInfo>, o: ObjectInfo, info: ObjectInfo, oids: map<nat, nat>, id: nat)
    requires OwnIds(all) && o in all && info in all
    ensures OidIn(o.obj.id, oids[info.obj.id := id]) == if o == info then id else OidIn(o.obj.id, oids)
  {
  }

  lemma CallOids(ois: OIS, m: Mtp, a: Action, id: nat)
    requires CanCall(ois, m, a) && id != 0 && 0 !in m.store
    ensures Binding.Call(ois, m, a, id).oids
            == if a.actor.Src? || a.kind.Remove? then m.oids else m.oids[a.obj.id := id]
    ensures 0 !in Binding.Call(ois, m, a, id).store
  {
    hide CanStep, Step;
  }

  lemma NoCalls(ois: OIS, m: Mtp, acts: seq<Action>, ids: seq<nat>)
    requires |acts| <= |ids|
    ensures MtpExec(ois, m, acts[..0], ids) == Ran(m, 0, false)
  {
  }

  /** What one more call does to the run. */
  lemma NextCall(ois: OIS, m: Mtp, acts: seq<Action>, ids: seq<nat>, n: nat)
    requires n < |acts| <= |ids| && !MtpExec(ois, m, acts[..n], ids).failed
    ensures var t := MtpExec(ois, m, acts[..n], ids).mtp;
            && (CanCall(ois, t, acts[n]) ==>
               MtpExec(ois, m, acts[..n + 1], ids) == Ran(Binding.Call(ois, t, acts[n], ids[n]), n + 1, false))
            && (!CanCall(ois, t, acts[n]) ==>
               MtpExec(ois, m, acts, ids) == MtpExec(ois, m, acts[..n], ids).(failed := true))
  {
    hide CanCall, Binding.Call;
    assert acts[..n + 1][..n] == acts[..n];
    if !CanCall(ois, MtpExec(ois, m, acts[..n], ids).mtp, acts[n]) { MtpStops(ois, m, acts, ids, n); }
  }
}
