/** Whole histories of use: user edits, complete runs and interrupted runs in any sequence.  What a run removes was
    there when the history was last saved, and has been removed on the other side since. */
module Runs {
  import opened Paths
  import opened InfoSet
  import opened Plan
  import opened FileSystem
  import opened WellFormed
  import opened Removals
  import opened Setting
  import opened Outcomes
  import opened Table
  import opened Stability
  import opened Interruption
  import opened Resumption
  import opened Protocol

  /** The two file systems, what the history store holds at its current step, and that step. */
  datatype Sys = Sys(world: World, hst: OIS, step: nat)

  /** `Edit` is anything users do to the file systems; `Cut` is a run that does its first `n` actions and saves
      nothing: it fails, is killed, or is a dry run. */
  datatype Event = Edit | Run(i: Inputs, b: Subsets, plan: PState) | Cut(i: Inputs, b: Subsets, plan: PState, n: nat)

  /** A run reads the state `s` and meets the hypotheses; without local books it ends in an error before planning. */
  ghost predicate Starts(cfg: Config, s: Sys, i: Inputs, b: Subsets, plan: PState) {
    i.cfg == cfg && SameData(i.hst, s.hst) && RunOK(i, b, s.world) && IsPlan(i, b, plan) && b.local != map[]
  }

  predicate Saves(s: Sys, plan: PState) {
    plan.acts != [] || s.step == 0
  }

  /** What is read back after the mirror of the source was saved. */
  ghost predicate SavedFrom(src: OIS, source: string, hst: OIS) {
    exists ois :: IsSubsetByPath(src, source, ois) && SameData(hst, ois)
  }

  ghost predicate Next(cfg: Config, s: Sys, e: Event, t: Sys) {
    match e
    case Edit => t.hst == s.hst && t.step == s.step
    case Run(i, b, plan) =>
      && Starts(cfg, s, i, b, plan)
      && t.world == Exec(s.world, plan.acts).world
      && (if Saves(s, plan) then t.step > s.step && SavedFrom(plan.src, cfg.source, t.hst)
          else t.hst == s.hst && t.step == s.step)
    case Cut(i, b, plan, n) =>
      && Starts(cfg, s, i, b, plan) && n <= |plan.acts|
      && t.world == Exec(s.world, plan.acts[..n]).world
      && t.hst == s.hst && t.step == s.step
  }

  ghost predicate NextAt(cfg: Config, tr: seq<Sys>, es: seq<Event>, n: int) {
    0 <= n < |es| && |tr| == |es| + 1 ==> Next(cfg, tr[n], es[n], tr[n + 1])
  }

  /** A history of use from an empty history store. */
  ghost predicate Trace(cfg: Config, tr: seq<Sys>, es: seq<Event>) {
    && |tr| == |es| + 1 && tr[0].hst == map[] && tr[0].step == 0
    && forall n :: NextAt(cfg, tr, es, n)
  }

  ghost function LocalLib(cfg: Config, s: Sys): Library { TreeBooks(cfg, s.world.local, cfg.source) }
  ghost function DeviceLib(cfg: Config, s: Sys): Library { TreeBooks(cfg, s.world.device, cfg.target) }

  /** The state `m` is one in which the history has just been saved. */
  predicate SavedAt(tr: seq<Sys>, m: nat) {
    0 < m < |tr| && tr[m].step > tr[m - 1].step
  }

  /** Between the save at `m` and the state `n` nothing was saved. */
  ghost predicate QuietFrom(tr: seq<Sys>, m: nat, n: nat) {
    m <= n < |tr| && forall j :: m <= j <= n ==> SameHistory(tr, m, j)
  }

  predicate SameHistory(tr: seq<Sys>, m: nat, j: nat)
    requires m < |tr| && j < |tr|
  {
    tr[j].hst == tr[m].hst && tr[j].step == tr[m].step
  }

  // ---------------------------------------------------------------------------------- the inductive invariant

  /** The history recorded at a save: its books are the local books, and all of them are on the device. */
  ghost predicate Recorded(cfg: Config, s: Sys) {
    && RecordedBooks(cfg, s.hst) == LocalLib(cfg, s)
    && LocalLib(cfg, s).Keys <= DeviceLib(cfg, s).Keys
  }

  lemma SaveIsRecorded(cfg: Config, s: Sys, e: Event, t: Sys)
    requires Next(cfg, s, e, t) && t.step > s.step
    ensures Recorded(cfg, t)
  {
    hide RunOK, IsPlan, Exec, TreeBooks, RecordedBooks, IsSubsetByPath, SameData, Ended, Settled;
    var i, b, f := e.i, e.b, e.plan;
    assert SavedFrom(f.src, cfg.source, t.hst);
    var ois :| IsSubsetByPath(f.src, cfg.source, ois) && SameData(t.hst, ois);
    RunSettles(i, b, f, s.world, s.step == 0, ois);
    PlanEnds(i, b, f, s.world);
    SaveRecords(i, b, s.world, f, ois);
    SameRecords(cfg, t.hst, ois, i);
    forall k | k in LocalLib(cfg, t) ensures k in DeviceLib(cfg, t) {
      SettledHas(LocalLib(cfg, t), RecordedBooks(cfg, ois), DeviceLib(cfg, t), k);
    }
  }

  lemma SameRecords(cfg: Config, hst: OIS, ois: OIS, i: Inputs)
    requires SameData(hst, ois) && i.cfg == cfg
    ensures RecordedBooks(cfg, hst) == RecordedBooks(cfg, ois)
  {
    hide RecordedBooks, SameData, HistoryView;
    HistorySame(i.(hst := ois), i.(hst := hst));
  }

  lemma StepKeeps(cfg: Config, s: Sys, e: Event, t: Sys)
    requires Next(cfg, s, e, t)
    ensures t.step > s.step || (t.hst == s.hst && t.step == s.step)
  {
    hide Starts, Exec, SavedFrom, IsPlan;
  }

  /** A complete run saves its mirror of the source if it had something to do or nothing was ever saved, and otherwise
      leaves the history alone. */
  lemma RunSaves(cfg: Config, s: Sys, e: Event, t: Sys)
    requires Next(cfg, s, e, t) && e.Run?
    ensures if e.plan.acts != [] || s.step == 0 then t.step > s.step && SavedFrom(e.plan.src, cfg.source, t.hst)
            else t.step == s.step && t.hst == s.hst
  {
    hide Starts, Exec, SavedFrom, IsPlan;
  }

  lemma {:induction false} StepsGrow(cfg: Config, tr: seq<Sys>, es: seq<Event>, n: nat)
    requires Trace(cfg, tr, es) && n <= |es|
    ensures tr[n].step >= 0
    decreases n
  {
    hide Next;
    if n > 0 {
      StepsGrow(cfg, tr, es, n - 1);
      assert NextAt(cfg, tr, es, n - 1);
      StepKeeps(cfg, tr[n - 1], es[n - 1], tr[n]);
    }
  }

  /** After every complete run of a history of use something is recorded, also when the run had nothing to do. */
  lemma RunLeavesHistory(cfg: Config, tr: seq<Sys>, es: seq<Event>, n: nat)
    requires Trace(cfg, tr, es) && n < |es| && es[n].Run?
    ensures tr[n + 1].step > 0
  {
    hide Next;
    StepsGrow(cfg, tr, es, n);
    assert NextAt(cfg, tr, es, n);
    RunSaves(cfg, tr[n], es[n], tr[n + 1]);
  }

  /** Every state of a history of use looks back to the last save, or there was none. */
  lemma {:induction false} LastSave(cfg: Config, tr: seq<Sys>, es: seq<Event>, n: nat) returns (m: nat)
    requires Trace(cfg, tr, es) && n <= |es|
    ensures m <= n && QuietFrom(tr, m, n)
    ensures if m == 0 then tr[n].hst == map[] else SavedAt(tr, m) && Recorded(cfg, tr[m])
    decreases n
  {
    hide Next, Recorded;
    if n == 0 {
      m := 0;
    } else {
      m := LastSave(cfg, tr, es, n - 1);
      assert NextAt(cfg, tr, es, n - 1);
      StepKeeps(cfg, tr[n - 1], es[n - 1], tr[n]);
      if tr[n].step > tr[n - 1].step {
        m := n;
        SaveIsRecorded(cfg, tr[n - 1], es[n - 1], tr[n]);
      } else {
        assert SameHistory(tr, m, n - 1);
      }
    }
  }

  // ---------------------------------------------------------------------------------- one step

  /** How many of its actions a run does. */
  function Done(e: Event): nat
    requires !e.Edit?
  {
    if e.Cut? then e.n else |e.plan.acts|
  }

  lemma RunIsPrefix(cfg: Config, s: Sys, e: Event, t: Sys)
    requires Next(cfg, s, e, t) && !e.Edit?
    ensures IsPlan(e.i, e.b, e.plan) && RunOK(e.i, e.b, s.world) && e.i.cfg == cfg && SameData(e.i.hst, s.hst)
    ensures Done(e) <= |e.plan.acts|
    ensures t.world == Exec(s.world, e.plan.acts[..Done(e)]).world
  {
    hide RunOK, Exec, SavedFrom, IsPlan, SameData;
    var acts := e.plan.acts;
    assert acts[..|acts|] == acts;
  }

  lemma RunColumns(cfg: Config, s: Sys, i: Inputs)
    requires i.cfg == cfg && SameData(i.hst, s.hst)
    ensures L0(i, s.world) == LocalLib(cfg, s) && D0(i, s.world) == DeviceLib(cfg, s)
    ensures H0(i) == RecordedBooks(cfg, s.hst)
  {
    hide TreeBooks, RecordedBooks, SameData, HistoryView;
    HistorySame(i.(hst := s.hst), i) by { SameSym(i.hst, s.hst); }
  }

  lemma SameSym(a: OIS, b: OIS)
    requires SameData(a, b)
    ensures SameData(b, a)
  {
    forall k ensures SameAt(b, a, k) { assert SameAt(a, b, k); }
  }

  /** What a run removes locally is recorded in the history and not on the device. */
  lemma LocalRemovalRow(cfg: Config, s: Sys, e: Event, t: Sys, k: string)
    requires Next(cfg, s, e, t) && !e.Edit? && k in LocalLib(cfg, s) && k !in LocalLib(cfg, t)
    ensures k in RecordedBooks(cfg, s.hst) && k !in DeviceLib(cfg, s)
  {
    hide Next, RunOK, Exec, IsPlan, SameData, TreeBooks, RecordedBooks, Ended, L0, D0, H0;
    RunIsPrefix(cfg, s, e, t);
    RunColumns(cfg, s, e.i);
    PlanEnds(e.i, e.b, e.plan, s.world);
    LocalBookStatus(e.i, e.b, s.world, e.plan, Done(e), k);
  }

  predicate SplitBook(e: Event, k: string) {
    e.Cut? && Splits(e.plan.acts, e.n, At(e.i.cfg.target, k))
  }

  /** What a run removes from the device is recorded in the history and not in the source, or is about to be
      replaced when the run is cut. */
  lemma DeviceRemovalRow(cfg: Config, s: Sys, e: Event, t: Sys, k: string)
    requires Next(cfg, s, e, t) && !e.Edit? && k in DeviceLib(cfg, s) && k !in DeviceLib(cfg, t)
    ensures SplitBook(e, k) || (k in RecordedBooks(cfg, s.hst) && k !in LocalLib(cfg, s))
  {
    hide *;
    RunIsPrefix(cfg, s, e, t);
    var f := e.plan;
    RunColumns(cfg, s, e.i);
    PlanEnds(e.i, e.b, e.plan, s.world);
    RunParts(e.i, e.b, s.world);
    DeviceBookStatus(e.i, e.b, s.world, f, Done(e), k);
    DeviceLibOf(cfg, t);
    StatusRemoved(e.i, s.world, f.acts, Done(e), DeviceLib(cfg, t), k);
    if Splits(f.acts, Done(e), At(e.i.cfg.target, k)) { SplitIs(e, k); }
    Rows(e.i, s.world, k);
    RemoveDeviceHas(L0(e.i, s.world), H0(e.i), D0(e.i, s.world), k);
  }

  lemma DeviceLibOf(cfg: Config, t: Sys)
    ensures DeviceLib(cfg, t) == TreeBooks(cfg, t.world.device, cfg.target)
  {
  }

  lemma StatusRemoved(i: Inputs, w: World, acts: seq<Action>, n: nat, U: Library, k: string)
    requires BookStatus(i, w, acts, n, U, k) && k in D0(i, w) && k !in U
    ensures k in Row6(i) || Splits(acts, n, At(i.cfg.target, k))
  {
    hide Row6, Row3, Splits, L0, D0, At;
  }

  lemma SplitIs(e: Event, k: string)
    requires !e.Edit? && Splits(e.plan.acts, Done(e), At(e.i.cfg.target, k))
    ensures SplitBook(e, k)
  {
    hide IsPlan, At;
  }

  lemma RemoveDeviceHas(L: Library, H: Library, D: Library, k: string)
    ensures k in RemoveDevice(L, H, D) ==> k in H && k !in L
  {
  }

  /** A complete run that saves nothing does nothing. */
  lemma QuietRun(cfg: Config, s: Sys, e: Event, t: Sys)
    requires Next(cfg, s, e, t) && e.Run? && t.step == s.step
    ensures t.world == s.world
  {
    hide RunOK, SavedFrom, IsPlan, SameData;
    ExecNothing(s.world);
  }

  // ---------------------------------------------------------------------------------- the theorems

  /** A recorded book was on both sides when it was recorded. */
  lemma WasOnBoth(cfg: Config, s: Sys, hst: OIS, k: string)
    requires k in RecordedBooks(cfg, hst) && (hst == map[] || (hst == s.hst && Recorded(cfg, s)))
    ensures hst != map[] && k in LocalLib(cfg, s) && k in DeviceLib(cfg, s)
  {
    hide LocalLib, DeviceLib, Ext;
  }

  ghost predicate Vanishes(on: bool, cfg: Config, tr: seq<Sys>, j: nat, k: string) {
    && j + 1 < |tr|
    && k in Lib(on, cfg, tr[j]) && k !in Lib(on, cfg, tr[j + 1])
  }

  ghost function Lib(on: bool, cfg: Config, s: Sys): Library { if on then DeviceLib(cfg, s) else LocalLib(cfg, s) }

  /** A book that was there and is not any more vanished in some step. */
  lemma {:induction false} VanishedAt(on: bool, cfg: Config, tr: seq<Sys>, m: nat, n: nat, k: string) returns (j: nat)
    requires m <= n < |tr| && k in Lib(on, cfg, tr[m]) && k !in Lib(on, cfg, tr[n])
    ensures m <= j < n && Vanishes(on, cfg, tr, j, k)
    decreases n
  {
    hide DeviceLib, LocalLib;
    assert m < n;
    if k in Lib(on, cfg, tr[n - 1]) { j := n - 1; } else { j := VanishedAt(on, cfg, tr, m, n - 1, k); }
  }

  lemma NotByRun(on: bool, cfg: Config, tr: seq<Sys>, es: seq<Event>, m: nat, n: nat, j: nat, k: string)
    requires Trace(cfg, tr, es) && n <= |es| && QuietFrom(tr, m, n) && m <= j < n && Vanishes(on, cfg, tr, j, k)
    ensures !es[j].Run?
  {
    hide Next, DeviceLib, LocalLib;
    assert NextAt(cfg, tr, es, j) && SameHistory(tr, m, j) && SameHistory(tr, m, j + 1);
    if es[j].Run? { QuietRun(cfg, tr[j], es[j], tr[j + 1]); }
  }

  /** A run, complete or not, removes a local book only if at the last save the book was in the source and on the
      device, and it has vanished from the device since: by an edit, or by an interrupted run that either found it
      missing from the source or stopped while it was replacing it. */
  lemma LocalRemovalsJustified(cfg: Config, tr: seq<Sys>, es: seq<Event>, n: nat, k: string) returns (m: nat, j: nat)
    requires Trace(cfg, tr, es) && n < |es| && !es[n].Edit? && Vanishes(false, cfg, tr, n, k)
    ensures m <= j < n && SavedAt(tr, m) && QuietFrom(tr, m, n)
    ensures k in LocalLib(cfg, tr[m]) && k in DeviceLib(cfg, tr[m]) && k !in DeviceLib(cfg, tr[n])
    ensures Vanishes(true, cfg, tr, j, k)
    ensures es[j].Edit? || (es[j].Cut? && (SplitBook(es[j], k) || k !in LocalLib(cfg, tr[j])))
  {
    hide Next, DeviceLib, LocalLib, RecordedBooks, SplitBook;
    m := LastSave(cfg, tr, es, n);
    assert NextAt(cfg, tr, es, n) && SameHistory(tr, m, n);
    LocalRemovalRow(cfg, tr[n], es[n], tr[n + 1], k);
    WasOnBoth(cfg, tr[m], tr[n].hst, k);
    j := VanishedAt(true, cfg, tr, m, n, k);
    NotByRun(true, cfg, tr, es, m, n, j, k);
    assert NextAt(cfg, tr, es, j);
    if es[j].Cut? { DeviceRemovalRow(cfg, tr[j], es[j], tr[j + 1], k); }
  }

  /** A run removes a book from the device only if at the last save the book was in the source and on the device, and
      it has vanished from the source since, by an edit or by an interrupted run that found it missing from the device;
      or the run is interrupted while it replaces the book. */
  lemma DeviceRemovalsJustified(cfg: Config, tr: seq<Sys>, es: seq<Event>, n: nat, k: string) returns (m: nat, j: nat)
    requires Trace(cfg, tr, es) && n < |es| && !es[n].Edit? && Vanishes(true, cfg, tr, n, k) && !SplitBook(es[n], k)
    ensures m <= j < n && SavedAt(tr, m) && QuietFrom(tr, m, n)
    ensures k in LocalLib(cfg, tr[m]) && k in DeviceLib(cfg, tr[m]) && k !in LocalLib(cfg, tr[n])
    ensures Vanishes(false, cfg, tr, j, k)
    ensures es[j].Edit? || (es[j].Cut? && k !in DeviceLib(cfg, tr[j]))
  {
    hide Next, DeviceLib, LocalLib, RecordedBooks, SplitBook;
    m := LastSave(cfg, tr, es, n);
    assert NextAt(cfg, tr, es, n) && SameHistory(tr, m, n);
    DeviceRemovalRow(cfg, tr[n], es[n], tr[n + 1], k);
    WasOnBoth(cfg, tr[m], tr[n].hst, k);
    j := VanishedAt(false, cfg, tr, m, n, k);
    NotByRun(false, cfg, tr, es, m, n, j, k);
    assert NextAt(cfg, tr, es, j);
    if es[j].Cut? { LocalRemovalRow(cfg, tr[j], es[j], tr[j + 1], k); }
  }
}
