/** The planner in e-mail mode, where the history stands in for the device: it sends each new or changed book once and
    removes nothing, and once that is recorded there is nothing left to send. */
module Mailing {
  import opened Paths
  import opened InfoSet
  import opened Plan
  import opened FileSystem
  import opened WellFormed
  import opened Setting
  import Resumption
  import opened Protocol

  /** What a run over e-mail reads: no thumbnails are extracted, and no recorded path is the text of the target. */
  ghost predicate MailOK(i: Inputs, b: Subsets, w: World) {
    && RootPath(i.cfg.source) && i.cfg.source != "." && LocalTree(i.cfg, w.local) && LocalView(i.src, w.local)
    && i.email && w.mail && w.pics == map[] && !i.TargetExists() && IsSubsets(i, b)
  }

  /** The books that are not recorded at all, or recorded with another content. */
  ghost function ToSend(i: Inputs): set<string> {
    set k | k in LocalBooks(i) && (k !in i.hst || (IsBook(i.cfg, i.hst[k]) && i.hst[k].pid != LocalBooks(i)[k].pid))
  }

  lemma MailBooks(i: Inputs, b: Subsets, w: World)
    requires MailOK(i, b, w)
    ensures b.local == LocalBooks(i)
  {
    hide RelClean, Base;
    var os, dir := i.src, i.cfg.source;
    forall k | SelectedIn(os, k, dir) ensures Below(k, dir) {
      assert LocalAt(i.cfg, w.local, k) && LocalObject(os, w.local, k) && LocalObject(os, w.local, dir);
    }
    var sub :| IsSubsetByPath(os, dir, sub) && b.local == Books(i.cfg, sub);
    SubsetIsDescend(os, dir, sub);
  }

  lemma MailBook(i: Inputs, w: World, k: string)
    requires LocalView(i.src, w.local) && k in LocalBooks(i)
    ensures var p := At(i.cfg.source, k);
            && p in i.src && LocalBooks(i)[k] == i.src[p] && i.src[p].path == p && !i.src[p].dir
            && p in w.local && w.local[p].File? && i.src[p].pid == w.local[p].content
            && TrimPrefix(p, i.cfg.source + "/") == k
  {
    hide Base, Ext;
    assert LocalObject(i.src, w.local, At(i.cfg.source, k));
    TrimBelow(At(i.cfg.source, k), i.cfg.source);
  }

  /** The state before the copy loop is the start: nothing is removed over e-mail. */
  lemma MailStart(i: Inputs, b: Subsets, o: Orders, w: World)
    requires MailOK(i, b, w) && IsOrders(i, b, o)
    ensures var s := i.Start(b.thumbs);
            && After7(i, b, o) == s && After6(i, b, o, s) == s
            && Objs3(i, b, s, s).Keys == ToSend(i) && forall k :: k in Objs3(i, b, s, s) ==>
               k in LocalBooks(i) && Objs3(i, b, s, s)[k] == LocalBooks(i)[k]
  {
    hide LocalBooks, LocalTree, LocalView, IsBooksOf, IsThumbsOf, Ext;
    MailBooks(i, b, w);
    var s := i.Start(b.thumbs);
    forall k | k in LocalBooks(i) ensures !LocalBooks(i)[k].dir { MailBook(i, w, k); }
    assert Objs3(i, b, s, s).Keys == ToSend(i);
  }

  /** The action that sends the book `k` as the `n`th. */
  ghost function SendAction(i: Inputs, k: string, n: nat): Action
    requires k in LocalBooks(i)
  {
    var obj := LocalBooks(i)[k];
    Action(Dst, Copy, Obj(i.next + n, obj.name, obj.pid, false, k, "", At(i.cfg.source, k)))
  }

  ghost predicate Sends(i: Inputs, order: seq<string>, s: PState) {
    && |s.acts| == |order| && s.next == i.next + |order| && s.src == i.src && !s.hangs
    && forall n :: 0 <= n < |order| ==> order[n] in LocalBooks(i) && s.acts[n] == SendAction(i, order[n], n)
  }

  lemma SendStep(i: Inputs, w: World, s: PState, k: string, n: nat)
    requires LocalView(i.src, w.local) && k in LocalBooks(i) && s.next == i.next + n
    ensures var t := Step3(i.cfg, i.ThumbsAvailable(), true, i.pics, s, LocalBooks(i)[k]);
            t.acts == s.acts + [SendAction(i, k, n)] && t.next == s.next + 1 && t.src == s.src && t.hangs == s.hangs
  {
    hide LocalBooks, LocalView, TrimPrefix;
    MailBook(i, w, k);
  }

  lemma SendsSnoc(i: Inputs, order: seq<string>, s: PState, k: string, t: PState)
    requires Sends(i, order, s) && k in LocalBooks(i)
    requires t.acts == s.acts + [SendAction(i, k, |order|)] && t.next == s.next + 1 && t.src == s.src
    requires t.hangs == s.hangs
    ensures Sends(i, order + [k], t)
  {
    hide LocalBooks, SendAction;
  }

  lemma {:induction false} Loop3Sends(i: Inputs, b: Subsets, w: World, objs: OIS, order: seq<string>)
    requires LocalView(i.src, w.local) && i.email
    requires forall k :: k in order ==> k in objs && k in LocalBooks(i) && objs[k] == LocalBooks(i)[k]
    ensures Sends(i, order, Loop3(i.cfg, i.ThumbsAvailable(), true, i.pics, i.Start(b.thumbs), objs, order))
    decreases |order|
  {
    hide LocalBooks, LocalView, Step3, Sends;
    if order == [] {
      assert Sends(i, [], i.Start(b.thumbs)) by { SendsNone(i, b); }
    } else {
      var m := |order| - 1;
      var pre, k := order[..m], order[m];
      assert order == pre + [k];
      assert forall x :: x in pre ==> x in order;
      Loop3Sends(i, b, w, objs, pre);
      var s := Loop3(i.cfg, i.ThumbsAvailable(), true, i.pics, i.Start(b.thumbs), objs, pre);
      SendsNext(i, pre, s);
      SendStep(i, w, s, k, m);
      SendsSnoc(i, pre, s, k, Step3(i.cfg, i.ThumbsAvailable(), true, i.pics, s, objs[k]));
    }
  }

  lemma SendsNone(i: Inputs, b: Subsets)
    ensures Sends(i, [], i.Start(b.thumbs))
  {
  }

  lemma SendsNext(i: Inputs, order: seq<string>, s: PState)
    requires Sends(i, order, s)
    ensures s.next == i.next + |order|
  {
  }

  /** Over e-mail the plan is one Copy for each book to send, from its place in the source, and the mirror of the
      source stays as it was. */
  lemma MailPlan(i: Inputs, b: Subsets, s: PState, w: World) returns (order: seq<string>)
    requires MailOK(i, b, w) && IsPlan(i, b, s)
    ensures IsOrder(order, ToSend(i)) && Sends(i, order, s)
  {
    hide LocalBooks, LocalTree, LocalView, IsSubsets, Objs3, ToSend, After7, After6, Sends;
    var o := PlanOrders(i, b, s);
    MailStart(i, b, o, w);
    Loop3Sends(i, b, w, Objs3(i, b, i.Start(b.thumbs), i.Start(b.thumbs)), o.o3);
    order := o.o3;
  }

  /** The contents of the books `order` of the source. */
  ghost function Contents(i: Inputs, w: World, order: seq<string>): seq<Node>
    requires forall k :: k in order ==> At(i.cfg.source, k) in w.local
    decreases |order|
  {
    if order == [] then [] else
      assert order[|order| - 1] in order;
      Contents(i, w, order[..|order| - 1]) + [w.local[At(i.cfg.source, order[|order| - 1])]]
  }

  lemma {:induction false} SendsAll(i: Inputs, w: World, order: seq<string>, s: PState)
    requires LocalView(i.src, w.local) && w.mail && w.pics == map[] && Sends(i, order, s)
    ensures forall k :: k in order ==> At(i.cfg.source, k) in w.local
    ensures Exec(w, s.acts) == Outcome(w.(sent := w.sent + Contents(i, w, order)), |order|, false)
    decreases |order|
  {
    hide LocalBooks, LocalView, Sends, Exec, SendAction;
    SendsFrom(i, w, order, s);
    if order == [] {
      assert s.acts == [] by { SendsLast(i, order, s); }
      ExecNothing(w);
      assert w.sent + [] == w.sent;
    } else {
      var m := |order| - 1;
      var pre := order[..m];
      SendsLast(i, order, s);
      SendsAll(i, w, pre, s.(acts := s.acts[..m], next := i.next + m));
      SendOne(i, w, Contents(i, w, pre), order[m], s.acts[m], m);
      ExecSnoc(w, s.acts[..m], s.acts[m]);
    }
  }

  lemma SendsFrom(i: Inputs, w: World, order: seq<string>, s: PState)
    requires LocalView(i.src, w.local) && Sends(i, order, s)
    ensures forall k :: k in order ==> At(i.cfg.source, k) in w.local
  {
    hide LocalBooks, LocalView;
    forall k | k in order ensures At(i.cfg.source, k) in w.local { MailBook(i, w, k); }
  }

  lemma SendsLast(i: Inputs, order: seq<string>, s: PState)
    requires Sends(i, order, s)
    ensures |s.acts| == |order|
    ensures order != [] ==>
              var m := |order| - 1;
              && Sends(i, order[..m], s.(acts := s.acts[..m], next := i.next + m))
              && order[m] in LocalBooks(i) && s.acts[m] == SendAction(i, order[m], m)
                 && s.acts == s.acts[..m] + [s.acts[m]]
  {
    hide LocalBooks, SendAction;
  }

  lemma SendOne(i: Inputs, w: World, sent: seq<Node>, k: string, a: Action, m: nat)
    requires LocalView(i.src, w.local) && w.mail && w.pics == map[] && k in LocalBooks(i) && a == SendAction(i, k, m)
    ensures var v := w.(sent := w.sent + sent);
            At(i.cfg.source, k) in w.local && CanStep(v, a)
                && Step(v, a) == w.(sent := w.sent + (sent + [w.local[At(i.cfg.source, k)]]))
  {
    hide LocalBooks, LocalView;
    MailBook(i, w, k);
    assert w.sent + sent + [w.local[At(i.cfg.source, k)]] == w.sent + (sent + [w.local[At(i.cfg.source, k)]]);
  }

  /** A run over e-mail never fails, sends the contents of the books to send in some order, each once, and changes
      neither file system. */
  lemma MailRuns(i: Inputs, b: Subsets, s: PState, w: World) returns (order: seq<string>)
    requires MailOK(i, b, w) && IsPlan(i, b, s)
    ensures IsOrder(order, ToSend(i)) && forall k :: k in order ==> At(i.cfg.source, k) in w.local
    ensures Exec(w, s.acts) == Outcome(w.(sent := w.sent + Contents(i, w, order)), |order|, false)
  {
    hide IsPlan, ToSend, IsSubsets, LocalBooks, IsOrder, Contents, Sends, Exec;
    order := MailPlan(i, b, s, w);
    SendsAll(i, w, order, s);
  }

  lemma EmptyOrder(o: seq<string>, ks: set<string>)
    requires IsOrder(o, ks)
    ensures ks == {} ==> o == []
  {
    if o != [] { assert o[0] in o; }
  }

  lemma SameBook(i: Inputs, w: World, j: Inputs, k: string)
    requires LocalView(i.src, w.local) && LocalView(j.src, w.local) && j.cfg == i.cfg && k in LocalBooks(j)
    ensures At(i.cfg.source, k) in i.src && i.src[At(i.cfg.source, k)].pid == LocalBooks(j)[k].pid
  {
    hide Base, Ext;
    assert LocalObject(i.src, w.local, At(i.cfg.source, k)) && LocalObject(j.src, w.local, At(i.cfg.source, k));
  }

  lemma SentIsRecorded(i: Inputs, w: World, j: Inputs, hst: OIS, k: string)
    requires LocalView(i.src, w.local) && LocalView(j.src, w.local) && j.cfg == i.cfg
    requires hst == Descend(i.src, i.cfg.source) && Resumption.SameData(j.hst, hst)
    ensures k !in ToSend(j)
  {
    hide *;
    ToSendIs(j, k);
    SameHas(j.hst, hst, k);
    if k in LocalBooks(j) {
      SameBook(i, w, j, k);
      DescendHas(i.src, i.cfg.source, k);
    }
  }

  lemma ToSendIs(i: Inputs, k: string)
    ensures k in ToSend(i) ==> k in LocalBooks(i) && (k !in i.hst || i.hst[k].pid != LocalBooks(i)[k].pid)
  {
    hide LocalBooks, IsBook;
  }

  lemma SameHas(a: OIS, b: OIS, k: string)
    requires Resumption.SameData(a, b)
    ensures k in b ==> k in a && a[k].pid == b[k].pid
  {
    assert Resumption.SameAt(a, b, k);
  }

  lemma DescendHas(os: OIS, dir: string, k: string)
    ensures At(dir, k) in os ==> k in Descend(os, dir) && Descend(os, dir)[k] == os[At(dir, k)]
  {
  }

  /** Once a complete run over e-mail is recorded, planning again with the same source gives the empty plan. */
  lemma MailFixedPoint(i: Inputs, b: Subsets, s: PState, w: World, hst: OIS, j: Inputs, d: Subsets, t: PState,
                       w2: World)
    requires MailOK(i, b, w) && IsPlan(i, b, s) && IsSubsetByPath(s.src, i.cfg.source, hst)
    requires MailOK(j, d, w2) && IsPlan(j, d, t) && j.cfg == i.cfg && w2.local == w.local
    requires Resumption.SameData(j.hst, hst)
    ensures t.acts == []
  {
    hide IsPlan, IsSubsets, LocalBooks, IsOrder, LocalTree, LocalView, IsSubsetByPath, Resumption.SameData;
    var sent := MailPlan(i, b, s, w);
    SaveIsDescend(i.cfg, i.src, w.local, hst);
    var order := MailPlan(j, d, t, w2);
    forall k ensures k !in ToSend(j) { SentIsRecorded(i, w, j, hst, k); }
    EmptyOrder(order, ToSend(j));
    assert Sends(j, order, t);
  }
}
