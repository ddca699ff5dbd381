/** mtp/device_linux.go: the walk over the objects of a device that leaves out what does not lead to a path of
    interest, and what the planner reads of it. */
module Mtp {
  import opened Paths
  import opened InfoSet
  import opened Plan
  import opened FileSystem
  import opened WellFormed

  // ---------------------------------------------------------------------------------- the walk

  /** Objects as the device holds them. */
  datatype Node = Node(oid: nat, name: string, dir: bool, children: seq<Node>)

  datatype Info = Info(oid: nat, name: string, dir: bool, path: string)

  function InfoOf(o: Node, root: string): Info { Info(o.oid, o.name, o.dir, Join(root, o.name)) }

  /** The full walk in pre-order. */
  function FullWalk(objs: seq<Node>, root: string): seq<Info>
    decreases objs
  {
    if objs == [] then []
    else FullWalk(objs[..|objs| - 1], root) + Below1(objs[|objs| - 1], root)
  }

  function Below1(o: Node, root: string): seq<Info>
    decreases o
  {
    [InfoOf(o, root)] + if o.dir then FullWalk(o.children, Join(root, o.name)) else []
  }

  /** A path that leads to a root or lies under one, as text. */
  predicate Wanted(roots: seq<string>, p: string) {
    exists r :: r in roots && (r <= p || p <= r)
  }

  function Keep(roots: seq<string>, infos: seq<Info>): seq<Info> {
    if infos == [] then []
    else Keep(roots, infos[..|infos| - 1]) + if Wanted(roots, infos[|infos| - 1].path) then [infos[|infos| - 1]] else []
  }

  predicate Known(infos: seq<Info>, oid: nat) {
    exists x :: x in infos && x.oid == oid
  }

  /** The infos appended one by one, without those whose object is there already. */
  function Collect(acc: seq<Info>, infos: seq<Info>): seq<Info>
    decreases |infos|
  {
    if infos == [] then acc
    else
      var pre := Collect(acc, infos[..|infos| - 1]);
      if Known(pre, infos[|infos| - 1].oid) then pre else pre + [infos[|infos| - 1]]
  }

  lemma {:induction false} KeepAppend(roots: seq<string>, a: seq<Info>, b: seq<Info>)
    ensures Keep(roots, a + b) == Keep(roots, a) + Keep(roots, b)
    decreases |b|
  {
    if b == [] {
      assert a + b == a;
    } else {
      assert (a + b)[..|a + b| - 1] == a + b[..|b| - 1];
      KeepAppend(roots, a, b[..|b| - 1]);
    }
  }

  lemma {:induction false} CollectAppend(acc: seq<Info>, a: seq<Info>, b: seq<Info>)
    ensures Collect(acc, a + b) == Collect(Collect(acc, a), b)
    decreases |b|
  {
    if b == [] {
      assert a + b == a;
    } else {
      assert (a + b)[..|a + b| - 1] == a + b[..|b| - 1];
      CollectAppend(acc, a, b[..|b| - 1]);
    }
  }

  lemma JoinExtends(a: string, b: string)
    ensures a <= Join(a, b)
  {
  }

  /** Everything in a subtree has a path that starts with the path of its root. */
  lemma {:induction false} WalkExtends(objs: seq<Node>, root: string, x: Info)
    requires x in FullWalk(objs, root)
    ensures root <= x.path
    decreases objs
  {
    var last := objs[|objs| - 1];
    if x in FullWalk(objs[..|objs| - 1], root) {
      WalkExtends(objs[..|objs| - 1], root, x);
    } else {
      JoinExtends(root, last.name);
      if x != InfoOf(last, root) { WalkExtends(last.children, Join(root, last.name), x); }
    }
  }

  /** What starts with an unwanted path is unwanted. */
  lemma UnwantedBelow(roots: seq<string>, p: string, q: string)
    requires !Wanted(roots, p) && p <= q
    ensures !Wanted(roots, q)
  {
    forall r | r in roots ensures !(r <= q || q <= r) { PrefixComparable(r, p, q); }
  }

  lemma PrefixComparable(r: string, p: string, q: string)
    requires p <= q
    ensures r <= q || q <= r ==> r <= p || p <= r
  {
    if r <= q {
      if |r| <= |p| { assert p[..|r|] == q[..|r|]; } else { assert r[..|p|] == q[..|p|]; }
    } else if q <= r {
      assert r[..|p|] == q[..|p|];
    }
  }

  lemma {:induction false} KeepNone(roots: seq<string>, infos: seq<Info>)
    requires forall x :: x in infos ==> !Wanted(roots, x.path)
    ensures Keep(roots, infos) == []
  {
    if infos != [] {
      assert infos[|infos| - 1] in infos;
      KeepNone(roots, infos[..|infos| - 1]);
    }
  }

  /** The walk of one object, kept, is empty when the object is unwanted, and starts with it otherwise. */
  lemma KeepOne(roots: seq<string>, o: Node, root: string)
    ensures !Wanted(roots, Join(root, o.name)) ==> Keep(roots, Below1(o, root)) == []
    ensures Wanted(roots, Join(root, o.name)) ==>
              Keep(roots, Below1(o, root))
                  == [InfoOf(o, root)] + Keep(roots, if o.dir then FullWalk(o.children, Join(root, o.name)) else [])
  {
    var p := Join(root, o.name);
    if Wanted(roots, p) {
      KeepAppend(roots, [InfoOf(o, root)], if o.dir then FullWalk(o.children, p) else []);
      KeepSingle(roots, InfoOf(o, root));
    } else {
      forall x | x in Below1(o, root) ensures !Wanted(roots, x.path) {
        if x != InfoOf(o, root) { WalkExtends(o.children, p, x); }
        UnwantedBelow(roots, p, x.path);
      }
      KeepNone(roots, Below1(o, root));
    }
  }

  lemma KeepSingle(roots: seq<string>, x: Info)
    ensures Keep(roots, [x]) == if Wanted(roots, x.path) then [x] else []
  {
    assert [x][..0] == [];
    assert Keep(roots, []) == [];
  }

  /** enumerateObjects: unwanted objects are passed over with everything under them, and an object seen before is not
      listed again.  The result is the full walk, filtered, and appended in the same way. */
  method EnumerateObjects(roots: seq<string>, objs: seq<Node>, root: string, infos: seq<Info>) returns (out: seq<Info>)
    ensures out == Collect(infos, Keep(roots, FullWalk(objs, root)))
    decreases objs
  {
    hide Wanted, Keep, Collect, Known, Join;
    out := infos;
    assert Collect(infos, Keep(roots, [])) == infos by { Nothing(roots, infos); }
    for n := 0 to |objs|
      invariant out == Collect(infos, Keep(roots, FullWalk(objs[..n], root)))
    {
      var obj := objs[n];
      assert objs[..n + 1][..n] == objs[..n];
      KeepAppend(roots, FullWalk(objs[..n], root), Below1(obj, root));
      CollectAppend(infos, Keep(roots, FullWalk(objs[..n], root)), Keep(roots, Below1(obj, root)));
      KeepOne(roots, obj, root);
      var info := InfoOf(obj, root);
      if !Wanted(roots, info.path) {
        Nothing(roots, out);
        continue;
      }
      ghost var rest := if obj.dir then FullWalk(obj.children, info.path) else [];
      CollectOne(roots, out, info, Keep(roots, rest));
      if !Known(out, info.oid) { out := out + [info]; }
      Nothing(roots, out);
      if obj.dir { out := EnumerateObjects(roots, obj.children, info.path, out); }
    }
    assert objs[..|objs|] == objs;
  }

  lemma Nothing(roots: seq<string>, acc: seq<Info>)
    ensures Keep(roots, []) == [] && Collect(acc, []) == acc
  {
  }

  lemma CollectOne(roots: seq<string>, acc: seq<Info>, x: Info, rest: seq<Info>)
    ensures Collect(acc, [x] + rest) == Collect(if Known(acc, x.oid) then acc else acc + [x], rest)
  {
    CollectAppend(acc, [x], rest);
    assert [x][..0] == [];
    assert Collect(acc, []) == acc;
  }

  ghost predicate DistinctIds(infos: seq<Info>) {
    forall j, k :: 0 <= j < k < |infos| ==> infos[j].oid != infos[k].oid
  }

  /** When the device gives every object its own id, nothing is taken for seen. */
  lemma {:induction false} CollectDistinct(acc: seq<Info>, infos: seq<Info>)
    requires DistinctIds(acc + infos)
    ensures Collect(acc, infos) == acc + infos
    decreases |infos|
  {
    if infos == [] {
      assert acc + infos == acc;
    } else {
      var m := |infos| - 1;
      var pre := acc + infos[..m];
      assert (acc + infos)[..|acc| + m] == pre;
      assert forall j :: 0 <= j < |pre| ==> pre[j] == (acc + infos)[j];
      CollectDistinct(acc, infos[..m]);
      assert !Known(pre, infos[m].oid) by { assert (acc + infos)[|acc| + m] == infos[m]; }
      assert pre + [infos[m]] == acc + infos;
    }
  }

  // ---------------------------------------------------------------------------------- what is listed, in which order

  /** `pos` are places of a list of length `n`, from front to back. */
  ghost predicate Places(pos: seq<nat>, n: nat) {
    (forall j :: 0 <= j < |pos| ==> pos[j] < n) && forall j, k :: 0 <= j < k < |pos| ==> pos[j] < pos[k]
  }

  lemma PlacesSnoc(pos: seq<nat>, n: nat)
    requires Places(pos, n)
    ensures Places(pos, n + 1) && Places(pos + [n], n + 1) && forall j :: j in pos + [n] <==> j in pos || j == n
  {
  }

  /** What is kept are the entries whose path is wanted, each at its place, in their order. */
  lemma {:induction false} KeepIs(roots: seq<string>, infos: seq<Info>) returns (pos: seq<nat>)
    ensures Places(pos, |infos|) && Keep(roots, infos) == seq(|pos|, n requires 0 <= n < |pos| => infos[pos[n]])
    ensures forall j :: j in pos <==> 0 <= j < |infos| && Wanted(roots, infos[j].path)
    decreases |infos|
  {
    hide Wanted;
    pos := [];
    if infos != [] {
      var m := |infos| - 1;
      pos := KeepIs(roots, infos[..m]);
      PlacesSnoc(pos, m);
      if Wanted(roots, infos[m].path) { pos := pos + [m]; }
    }
  }

  /** The first entry of its object, which `acc` does not have either. */
  ghost predicate FirstOf(acc: seq<Info>, infos: seq<Info>, j: int) {
    && 0 <= j < |infos| && (forall x :: x in acc ==> x.oid != infos[j].oid)
    && forall k :: 0 <= k < j ==> infos[k].oid != infos[j].oid
  }

  lemma KnownIs(acc: seq<Info>, infos: seq<Info>, pos: seq<nat>, out: seq<Info>, m: nat)
    requires m == |infos| - 1 && Places(pos, m) && out == acc + seq(|pos|, n requires 0 <= n < |pos| => infos[pos[n]])
    requires forall j :: j in pos <==> 0 <= j < m && FirstOf(acc, infos, j)
    ensures Known(out, infos[m].oid) <==> !FirstOf(acc, infos, m)
  {
    var oid := infos[m].oid;
    if x :| x in out && x.oid == oid {
      if x !in acc {
        var n :| 0 <= n < |pos| && infos[pos[n]] == x;
        assert infos[pos[n]].oid == oid;
      }
    }
    if !FirstOf(acc, infos, m) {
      if x :| x in acc && x.oid == oid {
        assert x in out;
      } else {
        var k := FirstWith(acc, infos, m);
        var n :| 0 <= n < |pos| && pos[n] == k;
        assert out[|acc| + n] == infos[k];
      }
    }
  }

  lemma {:induction false} FirstWith(acc: seq<Info>, infos: seq<Info>, m: nat) returns (k: nat)
    requires m < |infos| && (forall x :: x in acc ==> x.oid != infos[m].oid)
    ensures k <= m && infos[k].oid == infos[m].oid && FirstOf(acc, infos, k)
    decreases m
  {
    if k' :| 0 <= k' < m && infos[k'].oid == infos[m].oid { k := FirstWith(acc, infos, k'); } else { k := m; }
  }

  /** What is collected are the first entries of the objects that were not there before, in their order. */
  lemma {:induction false} CollectIs(acc: seq<Info>, infos: seq<Info>) returns (pos: seq<nat>)
    ensures Places(pos, |infos|)
    ensures Collect(acc, infos) == acc + seq(|pos|, n requires 0 <= n < |pos| => infos[pos[n]])
    ensures forall j :: j in pos <==> 0 <= j < |infos| && FirstOf(acc, infos, j)
    decreases |infos|
  {
    hide Known;
    pos := [];
    if infos != [] {
      var m := |infos| - 1;
      pos := CollectIs(acc, infos[..m]);
      forall j ensures j in pos <==> 0 <= j < m && FirstOf(acc, infos, j) {
        assert 0 <= j < m ==> infos[..m][j] == infos[j] && forall k :: 0 <= k < j ==> infos[..m][k] == infos[k];
      }
      var out := Collect(acc, infos[..m]);
      assert out == acc + seq(|pos|, n requires 0 <= n < |pos| => infos[pos[n]]);
      KnownIs(acc, infos, pos, out, m);
      PlacesSnoc(pos, m);
      if FirstOf(acc, infos, m) { pos := pos + [m]; }
    }
  }

  lemma {:induction false} WalkAppend(a: seq<Node>, b: seq<Node>, root: string)
    ensures FullWalk(a + b, root) == FullWalk(a, root) + FullWalk(b, root)
    decreases |b|
  {
    hide Below1;
    if b == [] {
      assert a + b == a;
    } else {
      assert (a + b)[..|a + b| - 1] == a + b[..|b| - 1];
      WalkAppend(a, b[..|b| - 1], root);
    }
  }

  /** The walk is in pre-order: what is before an object, the object, what is in it, and then what comes after it. */
  lemma WalkIs(objs: seq<Node>, n: nat, root: string)
    requires n < |objs|
    ensures var o, p := objs[n], Join(root, objs[n].name);
            FullWalk(objs, root) == FullWalk(objs[..n], root) + [Info(o.oid, o.name, o.dir, p)]
                + (if o.dir then FullWalk(o.children, p) else []) + FullWalk(objs[n + 1..], root)
  {
    hide Join;
    var o := objs[n];
    assert objs == (objs[..n] + [o]) + objs[n + 1..];
    WalkAppend(objs[..n] + [o], objs[n + 1..], root);
    assert (objs[..n] + [o])[..n] == objs[..n];
  }

  // ---------------------------------------------------------------------------------- the index

  /** No later entry has the path of this one. */
  ghost predicate LastAt(infos: seq<Info>, j: int) {
    0 <= j < |infos| && forall k :: j < k < |infos| ==> infos[k].path != infos[j].path
  }

  /** Each path that is listed stands for the last entry that has it. */
  ghost predicate ByPath(infos: seq<Info>, m: map<string, Info>) {
    && (forall j :: LastAt(infos, j) ==> infos[j].path in m && m[infos[j].path] == infos[j])
    && forall p :: p in m ==> exists j :: LastAt(infos, j) && infos[j].path == p
  }

  lemma ByPathNext(infos: seq<Info>, m: map<string, Info>, x: Info)
    requires ByPath(infos, m)
    ensures ByPath(infos + [x], m[x.path := x])
  {
    var all, n := infos + [x], m[x.path := x];
    forall j | LastAt(all, j) ensures all[j].path in n && n[all[j].path] == all[j] {
      if j < |infos| {
        assert all[|infos|] == x;
        forall k | j < k < |infos| ensures infos[k].path != infos[j].path { assert all[k] == infos[k]; }
        assert LastAt(infos, j);
      }
    }
    forall p | p in n ensures exists j :: LastAt(all, j) && all[j].path == p {
      if p == x.path {
        assert LastAt(all, |infos|);
      } else {
        var j :| LastAt(infos, j) && infos[j].path == p;
        assert LastAt(all, j);
      }
    }
  }

  /** The infos by path; of two with one path the later one stays. */
  function Index(infos: seq<Info>): map<string, Info> {
    if infos == [] then map[] else Index(infos[..|infos| - 1])[infos[|infos| - 1].path := infos[|infos| - 1]]
  }

  method IndexByPath(infos: seq<Info>) returns (oset: map<string, Info>)
    ensures oset == Index(infos) && ByPath(infos, oset)
  {
    hide ByPath;
    oset := map[];
    assert ByPath([], oset) by { NoPaths(); }
    for n := 0 to |infos|
      invariant oset == Index(infos[..n]) && ByPath(infos[..n], oset)
    {
      assert infos[..n + 1][..n] == infos[..n];
      assert infos[..n + 1] == infos[..n] + [infos[n]];
      ByPathNext(infos[..n], oset, infos[n]);
      oset := oset[infos[n].path := infos[n]];
    }
    assert infos[..|infos|] == infos;
  }

  lemma NoPaths()
    ensures ByPath([], map[])
  {
  }

  datatype Listing = NoObjects | Listed(objects: map<string, Info>)

  lemma {:induction false} CollectNone(acc: seq<Info>, infos: seq<Info>)
    ensures acc <= Collect(acc, infos) && (Collect(acc, infos) == [] <==> acc == [] && infos == [])
    decreases |infos|
  {
    if infos != [] { CollectNone(acc, infos[..|infos| - 1]); }
  }

  /** GetObjectInfos: an error when the walk lists nothing, and otherwise what it lists by path.  Over a device that
      gives every object its own id, the walk lists the full walk, filtered. */
  method GetObjectInfos(roots: seq<string>, storage: seq<Node>) returns (r: Listing)
    ensures r.NoObjects? <==> Keep(roots, FullWalk(storage, "")) == []
    ensures r.Listed? ==> r.objects == Index(Collect([], Keep(roots, FullWalk(storage, ""))))
    ensures r.Listed? ==> ByPath(Collect([], Keep(roots, FullWalk(storage, ""))), r.objects)
    ensures r.Listed? && DistinctIds(Keep(roots, FullWalk(storage, ""))) ==>
              r.objects == Index(Keep(roots, FullWalk(storage, "")))
              && ByPath(Keep(roots, FullWalk(storage, "")), r.objects)
  {
    hide Keep, FullWalk, Collect, Index, DistinctIds, ByPath;
    ghost var kept := Keep(roots, FullWalk(storage, ""));
    var infos := EnumerateObjects(roots, storage, "", []);
    CollectNone([], kept);
    assert [] + kept == kept;
    if DistinctIds(kept) { CollectDistinct([], kept); }
    if |infos| == 0 { return NoObjects; }
    var oset := IndexByPath(infos);
    return Listed(oset);
  }

  // ---------------------------------------------------------------------------------- what the planner reads

  lemma {:induction false} IndexMember(infos: seq<Info>, p: string)
    ensures p in Index(infos) <==> exists x :: x in infos && x.path == p
    ensures p in Index(infos) ==> Index(infos)[p] in infos && Index(infos)[p].path == p
  {
    if infos != [] {
      var pre, last := infos[..|infos| - 1], infos[|infos| - 1];
      assert forall x :: x in infos <==> x in pre || x == last;
      IndexMember(pre, p);
      if x :| x in pre && x.path == p { assert x in infos; }
    }
  }

  lemma {:induction false} KeepMember(roots: seq<string>, infos: seq<Info>, x: Info)
    ensures x in Keep(roots, infos) <==> x in infos && Wanted(roots, x.path)
  {
    hide Wanted;
    if infos != [] {
      var pre, last := infos[..|infos| - 1], infos[|infos| - 1];
      assert forall y :: y in infos <==> y in pre || y == last;
      KeepMember(roots, pre, x);
    }
  }

  lemma {:induction false} KeepDistinct(roots: seq<string>, infos: seq<Info>)
    requires DistinctIds(infos)
    ensures DistinctIds(Keep(roots, infos))
  {
    hide Wanted;
    if infos != [] {
      var n := |infos| - 1;
      var pre := infos[..n];
      KeepDistinct(roots, pre);
      forall x | x in Keep(roots, pre) ensures x.oid != infos[n].oid {
        KeepMember(roots, pre, x);
        var j :| 0 <= j < |pre| && pre[j] == x;
        assert infos[j] == x;
      }
    }
  }

  /** Names without slashes, neither empty nor dots. */
  predicate CleanForest(objs: seq<Node>)
    decreases objs
  {
    forall o :: o in objs ==> CleanPart(o.name) && CleanForest(o.children)
  }

  /** The object is named by its path, and the path is clean; it is listed at `root`, or its folder is listed too. */
  ghost predicate WellPlaced(objs: seq<Node>, root: string, x: Info) {
    && RelClean(x.path) && x.name == Base(x.path)
    && (Dir(x.path) == (if root == "" then "." else root) || FolderListed(FullWalk(objs, root), Dir(x.path)))
  }

  ghost predicate FolderListed(infos: seq<Info>, d: string) {
    exists y :: y in infos && y.path == d && y.dir
  }

  lemma ListedPlace(root: string, name: string)
    requires CleanPart(name) && (root == "" || RelClean(root))
    ensures RelClean(Join(root, name)) && Base(Join(root, name)) == name
    ensures Dir(Join(root, name)) == if root == "" then "." else root
  {
    if root == "" {
      OneClean(name);
      NoSlash(name);
    } else {
      RelCleanEnds(root);
      DirJoin(root, name);
      RelCleanAt(root, name);
    }
  }

  lemma WalkParts(objs: seq<Node>, root: string, x: Info)
    requires objs != []
    ensures var pre, last := objs[..|objs| - 1], objs[|objs| - 1];
            && (x in FullWalk(objs, root) <==> x in FullWalk(pre, root) || x in Below1(last, root))
            && (x in Below1(last, root) <==>
               x == InfoOf(last, root) || (last.dir && x in FullWalk(last.children, Join(root, last.name))))
            && last in objs && forall o :: o in pre ==> o in objs
  {
  }

  lemma CleanParts(objs: seq<Node>)
    requires CleanForest(objs) && objs != []
    ensures CleanForest(objs[..|objs| - 1]) && CleanPart(objs[|objs| - 1].name)
    ensures CleanForest(objs[|objs| - 1].children)
  {
    hide CleanPart;
    assert objs[|objs| - 1] in objs;
  }

  lemma PlacedKept(objs: seq<Node>, root: string, x: Info)
    requires objs != [] && WellPlaced(objs[..|objs| - 1], root, x)
    ensures WellPlaced(objs, root, x)
  {
    hide RelClean, Dir, Base, FullWalk;
    FolderKept(objs[..|objs| - 1], objs, root, root, Dir(x.path));
  }

  lemma PlacedHere(objs: seq<Node>, root: string, o: Node)
    requires CleanPart(o.name) && (root == "" || RelClean(root))
    ensures WellPlaced(objs, root, InfoOf(o, root)) && RelClean(Join(root, o.name))
  {
    hide RelClean, Dir, Base, FullWalk, Join, CleanPart;
    ListedPlace(root, o.name);
  }

  lemma PlacedSub(objs: seq<Node>, root: string, x: Info)
    requires objs != [] && objs[|objs| - 1].dir && RelClean(Join(root, objs[|objs| - 1].name))
    requires WellPlaced(objs[|objs| - 1].children, Join(root, objs[|objs| - 1].name), x)
    ensures WellPlaced(objs, root, x)
  {
    hide RelClean, Dir, Base, FullWalk, Below1, Join;
    var last := objs[|objs| - 1];
    var sub := Join(root, last.name);
    CleanNotEmpty(sub);
    WalkParts(objs, root, InfoOf(last, root));
    if Dir(x.path) == sub {
      assert FolderListed(FullWalk(objs, root), sub);
    } else {
      FolderSub(objs, root, Dir(x.path));
    }
  }

  /** Every listed object is well placed. */
  lemma {:induction false} WalkPlaces(objs: seq<Node>, root: string, x: Info)
    requires CleanForest(objs) && (root == "" || RelClean(root)) && x in FullWalk(objs, root)
    ensures WellPlaced(objs, root, x)
    decreases objs
  {
    assert objs != [];
    hide RelClean, CleanPart, Dir, Base, Join, FullWalk, Below1, WellPlaced, CleanForest;
    var pre, last := objs[..|objs| - 1], objs[|objs| - 1];
    WalkParts(objs, root, x);
    CleanParts(objs);
    PlacedHere(objs, root, last);
    if x in FullWalk(pre, root) {
      WalkPlaces(pre, root, x);
      PlacedKept(objs, root, x);
    } else if x != InfoOf(last, root) {
      WalkPlaces(last.children, Join(root, last.name), x);
      PlacedSub(objs, root, x);
    }
  }

  lemma CleanNotEmpty(p: string)
    requires RelClean(p)
    ensures p != ""
  {
    RelCleanEnds(p);
  }

  lemma FolderKept(pre: seq<Node>, objs: seq<Node>, root: string, r: string, d: string)
    requires objs != [] && pre == objs[..|objs| - 1]
    ensures FolderListed(FullWalk(pre, root), d) ==> FolderListed(FullWalk(objs, root), d)
  {
    hide FullWalk, Below1;
    if FolderListed(FullWalk(pre, root), d) {
      var y :| y in FullWalk(pre, root) && y.path == d && y.dir;
      WalkParts(objs, root, y);
    }
  }

  lemma FolderSub(objs: seq<Node>, root: string, d: string)
    requires objs != [] && objs[|objs| - 1].dir
    requires FolderListed(FullWalk(objs[|objs| - 1].children, Join(root, objs[|objs| - 1].name)), d)
    ensures FolderListed(FullWalk(objs, root), d)
  {
    hide FullWalk, Below1, Join;
    var last := objs[|objs| - 1];
    var y :| y in FullWalk(last.children, Join(root, last.name)) && y.path == d && y.dir;
    WalkParts(objs, root, y);
  }

  /** The tree of the device: a path for each object, a directory where the object is a folder. */
  ghost predicate HoldsAt(infos: seq<Info>, t: Tree, x: Info) {
    x in infos ==> x.path in t && (t[x.path].Directory? <==> x.dir)
  }

  ghost predicate SomeAt(infos: seq<Info>, t: Tree, p: string) {
    p in t ==> exists x :: x in infos && x.path == p
  }

  ghost predicate Holds(storage: seq<Node>, t: Tree) {
    (forall x :: HoldsAt(FullWalk(storage, ""), t, x)) && forall p :: SomeAt(FullWalk(storage, ""), t, p)
  }

  lemma StorageTree(storage: seq<Node>, t: Tree)
    requires CleanForest(storage) && Holds(storage, t)
    ensures DeviceTree(t)
  {
    hide RelClean, Dir, Base, FullWalk, CleanForest;
    var infos := FullWalk(storage, "");
    forall p ensures DeviceAt(t, p) {
      if p in t {
        assert SomeAt(infos, t, p);
        var x :| x in infos && x.path == p;
        WalkPlaces(storage, "", x);
        if Dir(p) != "." {
          var y :| y in infos && y.path == Dir(p) && y.dir;
          assert HoldsAt(infos, t, y);
        }
      }
    }
  }

  /** The index as the planner's map; an object stands for itself. */
  function ViewOf(objects: map<string, Info>): OIS {
    map p | p in objects :: Obj(objects[p].oid, objects[p].name, "", objects[p].dir, objects[p].path, "", "")
  }

  function Roots(cfg: Config): seq<string> { [cfg.target, THUMBNAIL_FOLDER] }

  /** The paths of interest start with the text of the target or of the thumbnail folder, or that text with them. */
  lemma WantedIs(cfg: Config, p: string)
    ensures Wanted(Roots(cfg), p) <==>
              cfg.target <= p || p <= cfg.target || "system/thumbnails" <= p || p <= "system/thumbnails"
  {
    assert cfg.target in Roots(cfg) && THUMBNAIL_FOLDER in Roots(cfg);
  }

  lemma ScopeWanted(cfg: Config, p: string)
    ensures InScope(cfg, p) ==> Wanted(Roots(cfg), p)
    ensures Below(cfg.target, p) ==> Wanted(Roots(cfg), p)
  {
    WantedIs(cfg, p);
    if Below(p, cfg.target) { assert cfg.target <= p; }
    if Below(p, THUMBNAIL_FOLDER) { assert THUMBNAIL_FOLDER <= p; }
    if Below(cfg.target, p) { assert p <= cfg.target; }
  }

  /** What the driver enumerates of a device with clean names and an id for each object is what the planner assumes: it
      describes the tree of the device, has everything at or below the target and the thumbnail folder, and has the
      directories above the target.  Nothing is listed exactly when the device has no path of interest. */
  lemma WalkIsView(cfg: Config, storage: seq<Node>, t: Tree)
    requires CleanForest(storage) && DistinctIds(FullWalk(storage, "")) && Holds(storage, t)
    ensures var os := ViewOf(Index(Collect([], Keep(Roots(cfg), FullWalk(storage, "")))));
            && DeviceTree(t) && DeviceView(cfg, os, t)
            && (forall p :: p in os <==> p in t && Wanted(Roots(cfg), p))
            && (RelClean(cfg.target) && Dir(cfg.target) in t ==> Dir(cfg.target) in os)
    ensures Keep(Roots(cfg), FullWalk(storage, "")) == [] <==> forall p :: p in t ==> !Wanted(Roots(cfg), p)
  {
    hide FullWalk, Keep, Collect, Index, CleanForest, Wanted, RelClean, Dir, Base, InScope, DistinctIds;
    var full, roots := FullWalk(storage, ""), Roots(cfg);
    var kept := Keep(roots, full);
    StorageTree(storage, t);
    KeepDistinct(roots, full);
    assert [] + kept == kept;
    CollectDistinct([], kept);
    var os := ViewOf(Index(kept));
    forall p ensures p in os <==> p in t && Wanted(roots, p) { ListedIs(storage, t, roots, p); }
    forall p ensures DeviceObjectAt(cfg, os, t, p) {
      ListedIs(storage, t, roots, p);
      ScopeWanted(cfg, p);
      if p in os {
        IndexMember(kept, p);
        KeepMember(roots, full, Index(kept)[p]);
        WalkPlaces(storage, "", Index(kept)[p]);
        assert HoldsAt(full, t, Index(kept)[p]);
      }
    }
    if RelClean(cfg.target) && Dir(cfg.target) in t {
      AboveTarget(cfg, t);
      ScopeWanted(cfg, Dir(cfg.target));
    }
    NoneKept(storage, t, roots);
  }

  lemma AboveTarget(cfg: Config, t: Tree)
    requires RelClean(cfg.target) && DeviceTree(t) && Dir(cfg.target) in t
    ensures Below(cfg.target, Dir(cfg.target))
  {
    assert DeviceAt(t, Dir(cfg.target));
    DotNotClean();
    RelCleanDir(cfg.target);
  }

  lemma ListedIs(storage: seq<Node>, t: Tree, roots: seq<string>, p: string)
    requires Holds(storage, t)
    ensures p in Index(Keep(roots, FullWalk(storage, ""))) <==> p in t && Wanted(roots, p)
  {
    hide FullWalk, Keep, Index, Wanted;
    var full := FullWalk(storage, "");
    IndexMember(Keep(roots, full), p);
    if x :| x in Keep(roots, full) && x.path == p {
      KeepMember(roots, full, x);
      assert HoldsAt(full, t, x);
    }
    if p in t && Wanted(roots, p) {
      assert SomeAt(full, t, p);
      var x :| x in full && x.path == p;
      KeepMember(roots, full, x);
    }
  }

  lemma NoneKept(storage: seq<Node>, t: Tree, roots: seq<string>)
    requires Holds(storage, t)
    ensures Keep(roots, FullWalk(storage, "")) == [] <==> forall p :: p in t ==> !Wanted(roots, p)
  {
    hide FullWalk, Keep, Wanted;
    var full := FullWalk(storage, "");
    var kept := Keep(roots, full);
    if kept != [] {
      KeepMember(roots, full, kept[0]);
      assert HoldsAt(full, t, kept[0]);
    } else {
      forall p | p in t ensures !Wanted(roots, p) {
        assert SomeAt(full, t, p);
        var x :| x in full && x.path == p;
        KeepMember(roots, full, x);
      }
    }
  }
}
