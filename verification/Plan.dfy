/** sync/prepare.go as functions on values: what each step of the planner does to the predicted mirrors of the
    two file systems and to the list of actions.  Map loops are folds over an explicit order of the keys. */
module Plan {
  import opened Paths
  import opened InfoSet

  const THUMBNAIL_FOLDER := "system/thumbnails"

  datatype Actor = Src | Dst
  datatype Kind = MkDir | Remove | Copy
  datatype Action = Action(actor: Actor, kind: Kind, obj: Obj)

  datatype Config = Config(source: string, target: string, bookExts: seq<string>, thumbExts: seq<string>,
      thumbDir: string)

  /** The planner's working state.  `next` is the identity of the next allocated object; `hangs` records that the
      upward recursion of makeRemoveDirActions would not end. */
  datatype PState = PState(src: OIS, dst: OIS, thumbs: OIS, acts: seq<Action>, next: nat, hangs: bool)

  predicate IsBook(cfg: Config, o: Obj) {
    !o.dir && Ext(o.name) in cfg.bookExts
  }

  function Books(cfg: Config, os: OIS): OIS {
    Filter(os, (k, o) => IsBook(cfg, o))
  }

  // ---------------------------------------------------------------------------------- local removals

  function RemoveSrc(s: PState, obj: Obj): PState {
    s.(acts := s.acts + [Action(Src, Remove, obj)], src := Drop(s.src, obj.path))
  }

  /** makeRemoveDirActions */
  function RemoveDirs(s: PState, dir: string, root: string): PState
    decreases |dir|
  {
    if dir == root then s
    else if !(if dir == "" then s.src == map[] else NothingSelected(s.src, dir)) then s
    else
      var found := Find(s.src, dir);
      var s1 := if found.Some? then s.(acts := s.acts + [Action(Src, Remove, found.value)], src := Drop(s.src, dir))
          else s;
      if |Dir(dir)| < |dir| then RemoveDirs(s1, Dir(dir), root) else s1.(hangs := true)
  }

  /** makeRemoveActions */
  function RemoveObject(s: PState, obj: Obj, root: string): PState {
    var s1 := RemoveSrc(s, obj);
    var dir := Dir(obj.path);
    if dir == "." then s1 else RemoveDirs(s1, dir, root)
  }

  function RemoveIfFound(s: PState, p: string, root: string): PState {
    var found := Find(s.src, p);
    if found.Some? then RemoveObject(s, found.value, root) else s
  }

  // ---------------------------------------------------------------------------------- device removals

  function RemoveDst(s: PState, obj: Obj, key: string): PState {
    s.(acts := s.acts + [Action(Dst, Remove, obj)], dst := Drop(s.dst, key))
  }

  function RemoveDstIfFound(s: PState, p: string): PState {
    var found := Find(s.dst, p);
    if found.Some? then RemoveDst(s, found.value, found.value.path) else s
  }

  function RemoveThumb(s: PState, avail: bool, name: string): PState {
    if avail && |name| > 0 && Find(s.thumbs, name).Some? then
      var thumb := s.thumbs[name];
      RemoveDst(s, thumb, thumb.path).(thumbs := Drop(s.thumbs, name))
    else s
  }

  /** One round of the loop for books removed from the device (case 7). */
  function Step7(cfg: Config, avail: bool, s: PState, obj: Obj): PState {
    var sup := Supplements(obj.path);
    var s1 := RemoveObject(s, obj, cfg.source);
    var s2 := RemoveIfFound(s1, sup[0], cfg.source);
    var s3 := RemoveIfFound(s2, sup[1], cfg.source);
    RemoveThumb(s3, avail, obj.thumb)
  }

  /** One round of the loop for books removed locally (case 6). */
  function Step6(avail: bool, history: OIS, s: PState, key: string, obj: Obj): PState {
    var sup := Supplements(obj.path);
    var s1 := RemoveDst(s, obj, obj.path);
    var s2 := RemoveDstIfFound(s1, sup[0]);
    var s3 := RemoveDstIfFound(s2, sup[1]);
    var hobj := Find(history, key);
    if hobj.Some? then RemoveThumb(s3, avail, hobj.value.thumb) else s3
  }

  // ---------------------------------------------------------------------------------- copies

  function EnsureDir(s: PState, head: string): PState {
    if Find(s.dst, head).Some? then s
    else
      var o := Obj(s.next, Base(head), "", true, head, "", "");
      s.(dst := Put(s.dst, head, o), acts := s.acts + [Action(Dst, MkDir, o)], next := s.next + 1)
  }

  /** makeCreateDirActions after splitting: `root` and then each directory on the way down. */
  function CreateDirs(s: PState, root: string, parts: seq<string>): PState
    decreases |parts|
  {
    if parts == [] then EnsureDir(s, root)
    else EnsureDir(CreateDirs(s, root, parts[..|parts| - 1]), JoinAll(root, parts))
  }

  function DirParts(dir: string): seq<string> {
    if dir == "." then [] else Split(dir)
  }

  function Place(s: PState, p: string, name: string, pid: string, from: string): PState {
    var o := Obj(s.next, name, pid, false, p, "", from);
    s.(dst := Put(s.dst, p, o), acts := s.acts + [Action(Dst, Copy, o)], next := s.next + 1)
  }

  function RemovePrev(s: PState, p: string): PState {
    var prev := Find(s.dst, p);
    if prev.Some? && !prev.value.dir then RemoveDst(s, prev.value, p) else s
  }

  /** makeCopyActions */
  function CopyObject(cfg: Config, email: bool, s: PState, obj: Obj): PState {
    var rel := TrimPrefix(obj.path, cfg.source + "/");
    if email then Place(s, rel, obj.name, obj.pid, obj.path)
    else
      var s1 := CreateDirs(s, cfg.target, DirParts(Dir(rel)));
      var p := Join(cfg.target, rel);
      Place(RemovePrev(s1, p), p, obj.name, obj.pid, obj.path)
  }

  function CopyIfFound(cfg: Config, s: PState, p: string): PState {
    var found := Find(s.src, p);
    if found.Some? then CopyObject(cfg, false, s, found.value) else s
  }

  /** The thumbnail part of the copy loop.  The entry that is replaced is dropped from the thumbnail set under the
      thumbnail name recorded in that entry, and the new one is added under its full path. */
  function CopyThumb(cfg: Config, avail: bool, pics: set<string>, s: PState, obj: Obj): PState {
    var from, to := Join(cfg.thumbDir, obj.thumb), Join(THUMBNAIL_FOLDER, obj.thumb);
    if avail && |obj.thumb| > 0 && from in pics then
      var prev := Find(s.thumbs, obj.thumb);
      var s1 := if prev.Some?
                then RemoveDst(s, prev.value, prev.value.path).(thumbs := Drop(s.thumbs, prev.value.thumb))
                else s;
      var o := Obj(s1.next, obj.thumb, "", false, to, "", from);
      s1.(dst := Put(s1.dst, to, o), thumbs := Put(s1.thumbs, to, o),
          acts := s1.acts + [Action(Dst, Copy, o)], next := s1.next + 1)
    else s
  }

  /** One round of the loop for books added or changed locally (case 3). */
  function Step3(cfg: Config, avail: bool, email: bool, pics: set<string>, s: PState, obj: Obj): PState {
    var s1 := CopyObject(cfg, email, s, obj);
    if email then s1
    else
      var sup := Supplements(obj.path);
      CopyThumb(cfg, avail, pics, CopyIfFound(cfg, CopyIfFound(cfg, s1, sup[0]), sup[1]), obj)
  }

  // ---------------------------------------------------------------------------------- the loops

  function Loop7(cfg: Config, avail: bool, s: PState, objs: OIS, order: seq<string>): PState
    requires forall k :: k in order ==> k in objs
    decreases |order|
  {
    if order == [] then s
    else Step7(cfg, avail, Loop7(cfg, avail, s, objs, order[..|order| - 1]), objs[order[|order| - 1]])
  }

  function Loop6(avail: bool, history: OIS, s: PState, objs: OIS, order: seq<string>): PState
    requires forall k :: k in order ==> k in objs
    decreases |order|
  {
    if order == [] then s
    else Step6(avail, history, Loop6(avail, history, s, objs, order[..|order| - 1]), order[|order| - 1],
               objs[order[|order| - 1]])
  }

  function Loop3(cfg: Config, avail: bool, email: bool, pics: set<string>, s: PState, objs: OIS,
                 order: seq<string>): PState
    requires forall k :: k in order ==> k in objs
    decreases |order|
  {
    if order == [] then s
    else Step3(cfg, avail, email, pics, Loop3(cfg, avail, email, pics, s, objs, order[..|order| - 1]),
               objs[order[|order| - 1]])
  }

  // ---------------------------------------------------------------------------------- the whole plan

  /** What PrepareActions reads.  `pics` are the thumbnail files that os.Stat finds; `dst` is what the device driver
      enumerates; `next` is an identity no enumerated object has. */
  datatype Inputs = Inputs(cfg: Config, src: OIS, hst: OIS, dst: OIS, pics: set<string>, ignoreRemovals: bool,
      email: bool, next: nat)
  {
    /** In e-mail mode the history stands in for the device. */
    function Device(): OIS { if email then hst else dst }
    predicate TargetExists() { Find(Device(), cfg.target).Some? }
    predicate ThumbsAvailable() { Find(Device(), THUMBNAIL_FOLDER).Some? }
    function Start(thumbs: OIS): PState { PState(src, Device(), thumbs, [], next, false) }
  }

  /** The subsets computed before the decisions are taken.  `device` is meaningless when the target is missing:
      then the Go variable is another name for the device map itself. */
  datatype Subsets = Subsets(local: OIS, history: OIS, device: OIS, thumbs: OIS)

  ghost predicate IsBooksOf(cfg: Config, os: OIS, dir: string, r: OIS) {
    exists sub :: IsSubsetByPath(os, dir, sub) && r == Books(cfg, sub)
  }

  /** Thumbnails: files of the thumbnail folder with a thumbnail extension, without those whose key starts with the
      key of a subdirectory. */
  function ThumbFilter(cfg: Config, sub: OIS): OIS {
    map k | k in sub && !sub[k].dir && (forall d :: d in sub && sub[d].dir ==> !(d <= k))
        && Ext(sub[k].name) in cfg.thumbExts :: sub[k]
  }

  ghost predicate IsThumbsOf(cfg: Config, os: OIS, r: OIS) {
    exists sub :: IsSubsetByPath(os, THUMBNAIL_FOLDER, sub) && r == ThumbFilter(cfg, sub)
  }

  ghost predicate IsSubsets(i: Inputs, b: Subsets) {
    && IsBooksOf(i.cfg, i.src, i.cfg.source, b.local)
    && b.history == Books(i.cfg, i.hst)
    && (i.TargetExists() ==> IsBooksOf(i.cfg, i.Device(), i.cfg.target, b.device))
    && (if i.ThumbsAvailable() then IsThumbsOf(i.cfg, i.Device(), b.thumbs) else b.thumbs == map[])
  }

  /** The order in which each of the three loops happened to walk its map. */
  datatype Orders = Orders(o7: seq<string>, o6: seq<string>, o3: seq<string>)

  ghost predicate IsOrder(o: seq<string>, ks: set<string>) {
    && (forall k :: k in o <==> k in ks)
    && (forall i, j :: 0 <= i < j < |o| ==> o[i] != o[j])
  }

  /** deviceBooks as the planner sees it in state `s`. */
  function DeviceBooks(i: Inputs, b: Subsets, s: PState): OIS {
    if i.TargetExists() then b.device else s.dst
  }

  function Objs7(i: Inputs, b: Subsets): OIS {
    Intersect(Subtract(b.history, DeviceBooks(i, b, i.Start(b.thumbs))), b.local)
  }

  predicate Active7(i: Inputs, b: Subsets) {
    Objs7(i, b) != map[] && !i.ignoreRemovals && !i.email
  }

  function After7(i: Inputs, b: Subsets, o: Orders): PState
    requires Active7(i, b) ==> IsOrder(o.o7, Objs7(i, b).Keys)
  {
    if Active7(i, b) then Loop7(i.cfg, i.ThumbsAvailable(), i.Start(b.thumbs), Objs7(i, b), o.o7) else i.Start(b.thumbs)
  }

  function Local7(i: Inputs, b: Subsets): OIS {
    if Active7(i, b) then Subtract(b.local, Objs7(i, b)) else b.local
  }

  function Objs6(i: Inputs, b: Subsets, s7: PState): OIS {
    Intersect(Subtract(DeviceBooks(i, b, s7), Local7(i, b)), b.history)
  }

  predicate Active6(i: Inputs, b: Subsets, s7: PState) {
    Objs6(i, b, s7) != map[] && !i.email
  }

  function After6(i: Inputs, b: Subsets, o: Orders, s7: PState): PState
    requires Active6(i, b, s7) ==> IsOrder(o.o6, Objs6(i, b, s7).Keys)
  {
    if Active6(i, b, s7) then Loop6(i.ThumbsAvailable(), b.history, s7, Objs6(i, b, s7), o.o6) else s7
  }

  function Device6(i: Inputs, b: Subsets, s7: PState, s6: PState): OIS {
    if Active6(i, b, s7) then Subtract(DeviceBooks(i, b, s6), Objs6(i, b, s7)) else DeviceBooks(i, b, s6)
  }

  function Objs3(i: Inputs, b: Subsets, s7: PState, s6: PState): OIS {
    Union(Subtract(Local7(i, b), Device6(i, b, s7, s6)),
          Diff(Local7(i, b), b.history, Unchanged))
  }

  predicate Unchanged(a: Obj, b: Obj) {
    a.dir || a.pid == b.pid
  }

  ghost predicate IsOrders(i: Inputs, b: Subsets, o: Orders) {
    && (Active7(i, b) ==> IsOrder(o.o7, Objs7(i, b).Keys))
    && var s7 := After7(i, b, o);
    && (Active6(i, b, s7) ==> IsOrder(o.o6, Objs6(i, b, s7).Keys))
    && var s6 := After6(i, b, o, s7);
    && IsOrder(o.o3, Objs3(i, b, s7, s6).Keys)
  }

  /** PrepareActions after the checks for errors. */
  function FinalState(i: Inputs, b: Subsets, o: Orders): PState
    requires IsOrders(i, b, o)
  {
    var s7 := After7(i, b, o);
    var s6 := After6(i, b, o, s7);
    Loop3(i.cfg, i.ThumbsAvailable(), i.email, i.pics, s6, Objs3(i, b, s7, s6), o.o3)
  }

  /** PrepareActions ends in `s` when it walks its maps in the orders `o`. */
  ghost predicate EndsIn(i: Inputs, b: Subsets, o: Orders, s: PState) {
    IsOrders(i, b, o) && s == FinalState(i, b, o)
  }

  ghost predicate OnlyEnd(i: Inputs, b: Subsets, o: Orders, s: PState) {
    forall t :: EndsIn(i, b, o, t) <==> t == s
  }

  /** `s` is a state in which the loops of PrepareActions may end: there are orders that lead to `s` and nowhere else.
      The loops are reached only if there are local books. */
  ghost predicate IsPlan(i: Inputs, b: Subsets, s: PState) {
    exists o :: OnlyEnd(i, b, o, s)
  }

  lemma PlanOrders(i: Inputs, b: Subsets, s: PState) returns (o: Orders)
    requires IsPlan(i, b, s)
    ensures IsOrders(i, b, o) && s == FinalState(i, b, o)
  {
    hide IsOrders, FinalState;
    o :| OnlyEnd(i, b, o, s);
    assert EndsIn(i, b, o, s);
  }

  lemma OrdersPlan(i: Inputs, b: Subsets, o: Orders)
    requires IsOrders(i, b, o)
    ensures IsPlan(i, b, FinalState(i, b, o))
  {
    hide IsOrders, FinalState;
    assert OnlyEnd(i, b, o, FinalState(i, b, o));
  }
}
