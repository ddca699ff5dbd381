/** The file systems that the planned actions run on, and the execution of a list of actions that stops at the
    first one that fails (sync/run.go). */
module FileSystem {
  import opened Paths
  import opened InfoSet
  import opened Plan

  /** `content` is the identity of the content and `thumb` the thumbnail name that extraction finds in it. */
  datatype Node = Directory | File(content: string, thumb: string)

  type Tree = map<string, Node>

  /** `pics` holds the extracted thumbnail files; `mail` says that the device is the e-mail driver, and `sent` lists
      the contents it has sent. */
  datatype World = World(local: Tree, device: Tree, pics: Tree, mail: bool, sent: seq<Node>)

  predicate Empty(t: Tree, p: string) {
    forall q :: q in t ==> !Below(q, p)
  }

  predicate CanRemove(t: Tree, p: string) {
    p in t && (t[p].Directory? ==> Empty(t, p))
  }

  predicate Free(t: Tree, p: string) {
    p !in t && (Dir(p) == "." || (Dir(p) in t && t[Dir(p)].Directory?))
  }

  function HostFile(w: World, p: string): Option<Node> {
    if p in w.pics then Some(w.pics[p]) else if p in w.local then Some(w.local[p]) else None
  }

  predicate Readable(w: World, p: string) {
    HostFile(w, p).Some? && HostFile(w, p).value.File?
  }

  /** A copy goes to a free path, or over a file that has the same content already. */
  predicate CanCopy(t: Tree, p: string, n: Option<Node>) {
    n.Some? && n.value.File? && (Free(t, p) || (p in t && t[p] == n.value))
  }

  predicate CanStep(w: World, a: Action) {
    var p := a.obj.path;
    match a.actor
    case Src => (match a.kind
                 case Remove => CanRemove(w.local, p)
                 case MkDir => Free(w.local, p)
                 case Copy => Free(w.local, p) && Readable(w, a.obj.from))
    case Dst => if w.mail then a.kind.Copy? ==> Readable(w, a.obj.from)
                else (match a.kind
                      case Remove => CanRemove(w.device, p)
                      case MkDir => Free(w.device, p)
                      case Copy => CanCopy(w.device, p, HostFile(w, a.obj.from)))
  }

  function Step(w: World, a: Action): World
    requires CanStep(w, a)
  {
    var p := a.obj.path;
    match a.actor
    case Src => (match a.kind
                 case Remove => w.(local := w.local - {p})
                 case MkDir => w.(local := w.local[p := Directory])
                 case Copy => w.(local := w.local[p := HostFile(w, a.obj.from).value]))
    case Dst => if w.mail then (if a.kind.Copy? then w.(sent := w.sent + [HostFile(w, a.obj.from).value]) else w)
                else (match a.kind
                      case Remove => w.(device := w.device - {p})
                      case MkDir => w.(device := w.device[p := Directory])
                      case Copy => w.(device := w.device[p := HostFile(w, a.obj.from).value]))
  }

  /** The outcome of a run: the world it leaves, and how many actions were done. */
  datatype Outcome = Outcome(world: World, done: nat, failed: bool)

  function Exec(w: World, acts: seq<Action>): (r: Outcome)
    ensures !r.failed ==> r.done == |acts|
    decreases |acts|
  {
    if acts == [] then Outcome(w, 0, false)
    else
      var r := Exec(w, acts[..|acts| - 1]);
      if r.failed || !CanStep(r.world, acts[|acts| - 1]) then r.(failed := true)
      else Outcome(Step(r.world, acts[|acts| - 1]), |acts|, false)
  }

  lemma ExecSnoc(w: World, acts: seq<Action>, a: Action)
    requires !Exec(w, acts).failed && CanStep(Exec(w, acts).world, a)
    ensures Exec(w, acts + [a]) == Outcome(Step(Exec(w, acts).world, a), |acts| + 1, false)
  {
    assert (acts + [a])[..|acts|] == acts;
  }

  /** A run that completes completes every prefix. */
  lemma {:induction false} ExecPrefix(w: World, acts: seq<Action>, n: nat)
    requires n <= |acts| && !Exec(w, acts).failed
    ensures !Exec(w, acts[..n]).failed
    decreases |acts|
  {
    if n < |acts| {
      ExecPrefix(w, acts[..|acts| - 1], n);
      assert acts[..|acts| - 1][..n] == acts[..n];
    } else {
      assert acts[..n] == acts;
    }
  }

  /** A run that meets an action that cannot be done does nothing more. */
  lemma {:induction false} ExecStops(w: World, acts: seq<Action>, n: nat)
    requires n < |acts| && !Exec(w, acts[..n]).failed && !CanStep(Exec(w, acts[..n]).world, acts[n])
    ensures Exec(w, acts) == Outcome(Exec(w, acts[..n]).world, n, true)
    decreases |acts|
  {
    var pre := acts[..|acts| - 1];
    if n < |acts| - 1 {
      assert pre[..n] == acts[..n];
      ExecStops(w, pre, n);
    }
  }

  // ---------------------------------------------------------------------------------- conservation

  predicate Is(a: Action, actor: Actor, kind: Kind, p: string) {
    a.actor == actor && a.kind == kind && a.obj.path == p
  }

  /** How often the list has this actor do this to this path. */
  function Count(acts: seq<Action>, actor: Actor, kind: Kind, p: string): nat
    decreases |acts|
  {
    if acts == [] then 0
    else Count(acts[..|acts| - 1], actor, kind, p) + if Is(acts[|acts| - 1], actor, kind, p) then 1 else 0
  }

  function Occupied(t: Tree, p: string): int { if p in t then 1 else 0 }

  function TreeOf(w: World, actor: Actor): Tree { if actor.Src? then w.local else w.device }

  /** How often the list copies over a file that is there. */
  function Overs(w: World, acts: seq<Action>, actor: Actor, p: string): nat
    decreases |acts|
  {
    if acts == [] then 0
    else
      var pre := acts[..|acts| - 1];
      Overs(w, pre, actor, p) + if Is(acts[|acts| - 1], actor, Copy, p) && p in TreeOf(Exec(w, pre).world, actor)
          then 1 else 0
  }

  /** One step changes the occupancy of a path by what it makes, copies to a free path or removes there. */
  lemma StepOccupies(w: World, a: Action, actor: Actor, p: string)
    requires CanStep(w, a) && !w.mail
    ensures !Step(w, a).mail
    ensures Occupied(TreeOf(Step(w, a), actor), p)
            == Occupied(TreeOf(w, actor), p)
               + (if Is(a, actor, MkDir, p) then 1 else 0) + (if Is(a, actor, Copy, p) then 1 else 0)
               - (if Is(a, actor, Remove, p) then 1 else 0)
               - (if Is(a, actor, Copy, p) && p in TreeOf(w, actor) then 1 else 0)
  {
    hide Below, Dir;
  }

  /** In every run that completes, a path is occupied at the end as often as it was at the start, plus what was
      created there and not over a file, minus what was removed. */
  lemma {:induction false} Conservation(w: World, acts: seq<Action>, actor: Actor, p: string)
    requires !Exec(w, acts).failed && !w.mail
    ensures !Exec(w, acts).world.mail
    ensures Occupied(TreeOf(Exec(w, acts).world, actor), p)
            == Occupied(TreeOf(w, actor), p) + Count(acts, actor, MkDir, p) + Count(acts, actor, Copy, p)
               - Count(acts, actor, Remove, p) - Overs(w, acts, actor, p)
    decreases |acts|
  {
    hide CanStep, Step, Is, Occupied, TreeOf;
    if acts != [] {
      var n := |acts| - 1;
      Conservation(w, acts[..n], actor, p);
      StepOccupies(Exec(w, acts[..n]).world, acts[n], actor, p);
    }
  }

  /** Nothing is copied over a file at a path to which every copy finds it free. */
  lemma {:induction false} NoOvers(w: World, acts: seq<Action>, actor: Actor, p: string)
    requires forall n :: 0 <= n < |acts| && Is(acts[n], actor, Copy, p) ==>
              p !in TreeOf(Exec(w, acts[..n]).world, actor)
    ensures Overs(w, acts, actor, p) == 0
    decreases |acts|
  {
    if acts != [] {
      var pre := acts[..|acts| - 1];
      forall n | 0 <= n < |pre| && Is(pre[n], actor, Copy, p) ensures p !in TreeOf(Exec(w, pre[..n]).world, actor) {
        assert pre[n] == acts[n] && pre[..n] == acts[..n];
      }
      NoOvers(w, pre, actor, p);
    }
  }
}
