/** The log queue under the schedule the code relies on: a spawned worker's Store lands before the
    dispatcher next looks that dongle up. Exclusion, no lost update, and what happens without it. */
module PromptDispatch {
  import opened Prelude
  import opened MachineInts
  import opened Decoder
  import opened Routes
  import opened Dispatch

  /** A Load is prompt when no worker of the looked-up dongle is still before its Store. */
  ghost predicate PromptStep(s: State, e: Step) {
    e.Load? && s.hand.Received? ==>
      forall i: nat | i < |s.workers| && s.workers[i].phase.Spawned? ::
        s.workers[i].work.dongleID != s.hand.work.dongleID
  }

  ghost predicate PromptRun(c: Config, s: State, steps: seq<Step>)
    decreases |steps|
  {
    steps == [] || (PromptStep(s, steps[0]) && Enabled(c, s, steps[0])
                    && PromptRun(c, Next(c, s, steps[0]), steps[1..]))
  }

  lemma {:induction false} NoLoadIsPrompt(c: Config, s: State, steps: seq<Step>)
    requires Exec(c, s, steps).Some? && forall i | 0 <= i < |steps| :: !steps[i].Load?
    ensures PromptRun(c, s, steps)
    decreases |steps|
  {
    if steps != [] {
      NoLoadIsPrompt(c, Next(c, s, steps[0]), steps[1..]);
    }
  }

  /** A run with a single Load, at a moment when every worker has stored itself, is prompt. */
  lemma OneLoadIsPrompt(c: Config, s: State, steps: seq<Step>)
    requires Exec(c, s, steps).Some? && |steps| >= 2 && steps[0] == Receive && steps[1] == Load
    requires forall i: nat | i < |s.workers| :: !s.workers[i].phase.Spawned?
    requires forall i | 2 <= i < |steps| :: !steps[i].Load?
    ensures PromptRun(c, s, steps)
  {
    var t := Next(c, s, Receive);
    assert steps[1..][0] == Load && steps[1..][1..] == steps[2..];
    NoLoadIsPrompt(c, Next(c, t, Load), steps[2..]);
    assert PromptRun(c, t, steps[1..]);
  }

  lemma {:induction false} PromptConcat(c: Config, s: State, a: seq<Step>, t: State, b: seq<Step>)
    requires PromptRun(c, s, a) && Exec(c, s, a) == Some(t) && PromptRun(c, t, b)
    ensures PromptRun(c, s, a + b) && Exec(c, s, a + b) == Exec(c, t, b)
    decreases |a|
  {
    if a == [] {
      assert a + b == b;
    } else {
      assert (a + b)[1..] == a[1..] + b;
      PromptConcat(c, Next(c, s, a[0]), a[1..], t, b);
    }
  }

  /** A worker that may still touch its route row: spawned, and not yet past its Delete. */
  predicate Busy(w: Worker) { w.phase.Spawned? || InSection(w) }

  /** The dispatcher has decided that the dongle is free. */
  predicate Committed(h: Hand) { h.Checked? || h.Admitted? || h.Starting? }

  ghost predicate Exclusive(ws: seq<Worker>) {
    forall i, j | 0 <= i < j < |ws| && Busy(ws[i]) && Busy(ws[j]) :: ws[i].work.dongleID != ws[j].work.dongleID
  }

  ghost predicate Registered(s: State) {
    forall i: nat | i < |s.workers| && InSection(s.workers[i]) ::
      s.workers[i].work.dongleID in s.activeJobs && s.activeJobs[s.workers[i].work.dongleID] == i
  }

  ghost predicate HandClear(s: State) {
    Committed(s.hand) ==>
      forall i: nat | i < |s.workers| && Busy(s.workers[i]) :: s.workers[i].work.dongleID != s.hand.work.dongleID
  }

  ghost predicate PromptInv(s: State) {
    KeysActive(s) && Exclusive(s.workers) && Registered(s) && HandClear(s)
  }

  lemma DispatcherStepKeepsPromptInv(c: Config, s: State, e: Step)
    requires PromptInv(s) && Enabled(c, s, e) && PromptStep(s, e) && Moved(e).None?
    ensures PromptInv(Next(c, s, e))
  {
    var t := Next(c, s, e);
    assert t.activeJobs == s.activeJobs;
    if e.Spawn? {
      assert forall j: nat | j < |s.workers| :: t.workers[j] == s.workers[j];
      assert Committed(s.hand) && t.workers[|s.workers|].work == s.hand.work;
    } else {
      assert t.workers == s.workers;
    }
  }

  lemma StoreKeepsPromptInv(c: Config, s: State, i: nat)
    requires PromptInv(s) && Enabled(c, s, Store(i))
    ensures PromptInv(Next(c, s, Store(i)))
  {
    var t := Next(c, s, Store(i));
    forall j: nat | j < |t.workers|
      ensures t.workers[j].work == s.workers[j].work && Busy(t.workers[j]) == Busy(s.workers[j])
    {
    }
  }

  lemma DeleteKeepsPromptInv(c: Config, s: State, i: nat)
    requires PromptInv(s) && Enabled(c, s, Delete(i))
    ensures PromptInv(Next(c, s, Delete(i)))
  {
  }

  lemma OtherWorkerStepKeepsPromptInv(c: Config, s: State, e: Step)
    requires PromptInv(s) && Enabled(c, s, e) && Moved(e).Some? && !e.Store? && !e.Delete?
    ensures PromptInv(Next(c, s, e))
  {
    var t, i := Next(c, s, e), Moved(e).value;
    assert t.hand == s.hand && t.activeJobs == s.activeJobs;
    assert forall j: nat | j < |t.workers| && j != i :: t.workers[j] == s.workers[j];
    assert t.workers[i].work == s.workers[i].work && InSection(t.workers[i]) == InSection(s.workers[i])
           && Busy(t.workers[i]) == Busy(s.workers[i]);
  }

  lemma StepKeepsPromptInv(c: Config, s: State, e: Step)
    requires PromptInv(s) && Enabled(c, s, e) && PromptStep(s, e)
    ensures PromptInv(Next(c, s, e))
  {
    if Moved(e).None? {
      DispatcherStepKeepsPromptInv(c, s, e);
    } else if e.Store? {
      StoreKeepsPromptInv(c, s, e.worker);
    } else if e.Delete? {
      DeleteKeepsPromptInv(c, s, e.worker);
    } else {
      OtherWorkerStepKeepsPromptInv(c, s, e);
    }
  }

  // ----- Bookkeeping of the successful saves, under every interleaving -----

  /** The route row a log belongs to: that of its dongle's device and its own route id. */
  predicate Concerns(c: Config, w: Work, k: Key) {
    w.dongleID in c.devices && c.devices[w.dongleID] == k.deviceID && w.routeID == k.routeID
  }

  /** Two logs of registered dongles belong to one row exactly if dongle and route id agree. */
  lemma RowSharedIff(c: Config, v: Work, w: Work)
    requires ValidConfig(c) && v.dongleID in c.devices && w.dongleID in c.devices
    ensures KeyOf(c, v) == KeyOf(c, w) <==> v.dongleID == w.dongleID && v.routeID == w.routeID
    ensures forall k: Key :: k == KeyOf(c, w) <==> Concerns(c, w, k)
  {
  }

  /** A worker reads the row its log belongs to, and its save changes that row and no other. */
  lemma WorkerKeepsToItsRow(c: Config, s: State, i: nat, seg: SegmentData, k: Key)
    requires i < |s.workers| && Concerns(c, s.workers[i].work, k)
    ensures Enabled(c, s, Read(i, seg)) ==>
              Next(c, s, Read(i, seg)).workers[i].phase == Holding(seg, Lookup(s.routes, k))
    ensures Enabled(c, s, Save(i)) ==>
              && Lookup(Next(c, s, Save(i)).routes, k) ==
                 Some(FoldSegment(s.workers[i].phase.row, k.deviceID, k.routeID, s.workers[i].phase.segment))
              && forall other: Key | other != k :: Lookup(Next(c, s, Save(i)).routes, other) == Lookup(s.routes, other)
  {
  }

  /** Every entry of saves is what its worker saved. */
  ghost predicate SavesRight(c: Config, s: State) {
    forall j | 0 <= j < |s.saves| ::
      var v := s.saves[j];
      && v.worker < |s.workers| && s.workers[v.worker].saved == Some(v.segment)
      && Concerns(c, s.workers[v.worker].work, v.key)
  }

  predicate PastSaving(p: Phase) { p.Finishing? || p.Deleted? || p.Done? }

  ghost predicate SavedPastSaving(s: State) {
    forall i: nat | i < |s.workers| && s.workers[i].saved.Some? :: PastSaving(s.workers[i].phase)
  }

  /** saves lists exactly the workers that saved, once each, with what they saved. */
  ghost predicate SavesExact(c: Config, s: State) {
    SavesRight(c, s) && SavedPastSaving(s) && SavedOnce(s) && SavedListed(s)
  }

  ghost predicate SavedOnce(s: State) {
    forall j, k | 0 <= j < k < |s.saves| :: s.saves[j].worker != s.saves[k].worker
  }

  ghost predicate SavedListed(s: State) {
    forall i: nat | i < |s.workers| && s.workers[i].saved.Some? ::
      exists j :: 0 <= j < |s.saves| && s.saves[j].worker == i
  }

  lemma SaveKeepsRight(c: Config, s: State, i: nat)
    requires SavesRight(c, s) && SavedPastSaving(s) && Enabled(c, s, Save(i))
    ensures SavesRight(c, Next(c, s, Save(i))) && SavedPastSaving(Next(c, s, Save(i)))
  {
  }

  lemma SaveKeepsDistinct(c: Config, s: State, i: nat)
    requires SavesRight(c, s) && SavedPastSaving(s) && SavedOnce(s) && Enabled(c, s, Save(i))
    ensures SavedOnce(Next(c, s, Save(i)))
  {
    forall j | 0 <= j < |s.saves| ensures s.saves[j].worker != i {
      assert s.workers[s.saves[j].worker].saved.Some?;
    }
  }

  lemma SaveKeepsListed(c: Config, s: State, i: nat)
    requires SavedListed(s) && Enabled(c, s, Save(i))
    ensures SavedListed(Next(c, s, Save(i)))
  {
    var t, n := Next(c, s, Save(i)), |s.saves|;
    assert t.saves[n].worker == i;
    forall m: nat | m < |t.workers| && t.workers[m].saved.Some?
      ensures exists j :: 0 <= j < |t.saves| && t.saves[j].worker == m
    {
      if m != i {
        var j :| 0 <= j < n && s.saves[j].worker == m;
        assert t.saves[j].worker == m;
      }
    }
  }

  lemma SaveKeepsSaves(c: Config, s: State, i: nat)
    requires SavesExact(c, s) && Enabled(c, s, Save(i))
    ensures SavesExact(c, Next(c, s, Save(i)))
  {
    SaveKeepsRight(c, s, i);
    SaveKeepsDistinct(c, s, i);
    SaveKeepsListed(c, s, i);
  }

  lemma StepKeepsSaves(c: Config, s: State, e: Step)
    requires SavesExact(c, s) && Enabled(c, s, e)
    ensures SavesExact(c, Next(c, s, e))
  {
    if e.Save? {
      SaveKeepsSaves(c, s, e.worker);
    } else {
      SavedFrame(c, s, e);
    }
  }

  /** No other step changes who saved what. */
  lemma SavedFrame(c: Config, s: State, e: Step)
    requires Enabled(c, s, e) && !e.Save?
    ensures var t := Next(c, s, e);
            && t.saves == s.saves && |t.workers| >= |s.workers|
            && (forall m: nat | m < |s.workers| ::
                  && t.workers[m].work == s.workers[m].work && t.workers[m].saved == s.workers[m].saved
                  && (PastSaving(s.workers[m].phase) ==> PastSaving(t.workers[m].phase)))
            && forall m: nat | |s.workers| <= m < |t.workers| :: t.workers[m].saved.None?
  {
  }

  // ----- No lost update -----

  /** The segments saved under one key, in the order of the saves. */
  function SegmentsFor(saves: seq<Saving>, k: Key): seq<SegmentData> {
    if saves == [] then []
    else
      var n := |saves| - 1;
      SegmentsFor(saves[..n], k) + if saves[n].key == k then [saves[n].segment] else []
  }

  function Replayed(initial: map<Key, Route>, saves: seq<Saving>, k: Key): Option<Route> {
    FoldAll(Lookup(initial, k), k.deviceID, k.routeID, SegmentsFor(saves, k))
  }

  ghost predicate RowsReplay(initial: map<Key, Route>, s: State) {
    forall k: Key :: Lookup(s.routes, k) == Replayed(initial, s.saves, k)
  }

  /** A worker between read and save still holds the current row. */
  ghost predicate HeldRowsCurrent(c: Config, s: State) {
    forall i: nat | i < |s.workers| && s.workers[i].phase.Holding? ::
      && s.workers[i].work.dongleID in c.devices
      && s.workers[i].phase.row == Lookup(s.routes, KeyOf(c, s.workers[i].work))
  }

  lemma ReplayedSnoc(initial: map<Key, Route>, saves: seq<Saving>, v: Saving, k: Key)
    ensures Replayed(initial, saves + [v], k) ==
            if v.key == k then Some(FoldSegment(Replayed(initial, saves, k), k.deviceID, k.routeID, v.segment))
            else Replayed(initial, saves, k)
  {
    assert (saves + [v])[..|saves|] == saves;
    var segs := SegmentsFor(saves, k);
    if v.key == k {
      assert SegmentsFor(saves + [v], k) == segs + [v.segment];
      assert (segs + [v.segment])[..|segs|] == segs;
    } else {
      assert SegmentsFor(saves + [v], k) == segs;
    }
  }

  lemma SaveReplays(c: Config, initial: map<Key, Route>, s: State, i: nat)
    requires RowsReplay(initial, s) && HeldRowsCurrent(c, s) && Enabled(c, s, Save(i))
    ensures RowsReplay(initial, Next(c, s, Save(i)))
  {
    var t := Next(c, s, Save(i));
    var v := t.saves[|s.saves|];
    assert t.saves == s.saves + [v];
    forall k: Key ensures Lookup(t.routes, k) == Replayed(initial, t.saves, k) {
      assert Lookup(s.routes, k) == Replayed(initial, s.saves, k);
      ReplayedSnoc(initial, s.saves, v, k);
    }
  }

  lemma SaveKeepsHeldRows(c: Config, s: State, i: nat)
    requires ValidConfig(c) && Exclusive(s.workers) && HeldRowsCurrent(c, s) && Enabled(c, s, Save(i))
    ensures HeldRowsCurrent(c, Next(c, s, Save(i)))
  {
    var t := Next(c, s, Save(i));
    forall j: nat | j < |t.workers| && t.workers[j].phase.Holding?
      ensures t.workers[j].work.dongleID in c.devices
              && t.workers[j].phase.row == Lookup(t.routes, KeyOf(c, t.workers[j].work))
    {
      assert j != i && t.workers[j] == s.workers[j];
      assert Busy(s.workers[i]) && Busy(s.workers[j]);
      assert KeyOf(c, s.workers[j].work) != KeyOf(c, s.workers[i].work);
    }
  }

  lemma StepReplays(c: Config, initial: map<Key, Route>, s: State, e: Step)
    requires ValidConfig(c) && Exclusive(s.workers) && RowsReplay(initial, s) && HeldRowsCurrent(c, s)
    requires Enabled(c, s, e)
    ensures RowsReplay(initial, Next(c, s, e)) && HeldRowsCurrent(c, Next(c, s, e))
  {
    if e.Save? {
      SaveReplays(c, initial, s, e.worker);
      SaveKeepsHeldRows(c, s, e.worker);
    } else {
      var t := Next(c, s, e);
      assert t.routes == s.routes && t.saves == s.saves;
      forall j: nat | j < |t.workers| && t.workers[j].phase.Holding?
        ensures t.workers[j].work.dongleID in c.devices
                && t.workers[j].phase.row == Lookup(t.routes, KeyOf(c, t.workers[j].work))
      {
        assert Moved(e) == Some(j) || (j < |s.workers| && t.workers[j] == s.workers[j]);
      }
    }
  }

  lemma {:induction false} PromptRunKeeps(c: Config, initial: map<Key, Route>, s: State, steps: seq<Step>)
    requires ValidConfig(c) && PromptRun(c, s, steps)
    requires PromptInv(s) && SavesExact(c, s) && RowsReplay(initial, s) && HeldRowsCurrent(c, s)
    ensures Exec(c, s, steps).Some?
    ensures var t := Exec(c, s, steps).value;
            PromptInv(t) && SavesExact(c, t) && RowsReplay(initial, t) && HeldRowsCurrent(c, t)
    decreases |steps|
  {
    if steps != [] {
      StepKeepsPromptInv(c, s, steps[0]);
      StepKeepsSaves(c, s, steps[0]);
      StepReplays(c, initial, s, steps[0]);
      PromptRunKeeps(c, initial, Next(c, s, steps[0]), steps[1..]);
    }
  }

  /** Per-dongle exclusion in every state of every prompt run: two workers of one dongle are never
      between Store and Delete together, and the keys of activeJobs are exactly the dongles of the
      workers that are. */
  lemma Exclusion(c: Config, initial: map<Key, Route>, steps: seq<Step>)
    requires ValidConfig(c) && PromptRun(c, Initial(initial), steps)
    ensures Exec(c, Initial(initial), steps).Some?
    ensures var s := Exec(c, Initial(initial), steps).value;
            && (forall i, j | 0 <= i < j < |s.workers| && InSection(s.workers[i]) && InSection(s.workers[j]) ::
                  s.workers[i].work.dongleID != s.workers[j].work.dongleID)
            && (forall d :: d in s.activeJobs <==>
                  exists i: nat :: i < |s.workers| && InSection(s.workers[i]) && s.workers[i].work.dongleID == d)
  {
    PromptRunKeeps(c, initial, Initial(initial), steps);
  }

  /** The workers that saved successfully under a key. */
  ghost function Succeeded(c: Config, s: State, k: Key): set<nat> {
    set i: nat | i < |s.workers| && s.workers[i].saved.Some? && Concerns(c, s.workers[i].work, k)
  }

  ghost function SaversOf(saves: seq<Saving>, k: Key): set<nat> {
    set j: nat | j < |saves| && saves[j].key == k :: saves[j].worker
  }

  lemma {:induction false} SaversCount(saves: seq<Saving>, k: Key)
    requires forall i, j | 0 <= i < j < |saves| :: saves[i].worker != saves[j].worker
    ensures |SaversOf(saves, k)| == |SegmentsFor(saves, k)|
    decreases |saves|
  {
    if saves != [] {
      var n := |saves| - 1;
      SaversCount(saves[..n], k);
      var before := SaversOf(saves[..n], k);
      forall x | x in SaversOf(saves, k) ensures x in before || (saves[n].key == k && x == saves[n].worker) {
        var j: nat :| j < |saves| && saves[j].key == k && saves[j].worker == x;
        if j < n { assert saves[..n][j] == saves[j]; }
      }
      forall x | x in before ensures x in SaversOf(saves, k) && x != saves[n].worker {
        var j: nat :| j < n && saves[..n][j].key == k && saves[..n][j].worker == x;
        assert saves[j].worker == x;
      }
      if saves[n].key == k {
        assert SaversOf(saves, k) == before + {saves[n].worker};
      } else {
        assert SaversOf(saves, k) == before;
      }
    }
  }

  /** No lost update: in every state of every prompt run, each route row is the sequential fold, in
      the order of the saves, of exactly the jobs that succeeded for it. */
  lemma NoLostUpdate(c: Config, initial: map<Key, Route>, steps: seq<Step>, k: Key)
    requires ValidConfig(c) && PromptRun(c, Initial(initial), steps)
    ensures Exec(c, Initial(initial), steps).Some?
    ensures var s := Exec(c, Initial(initial), steps).value;
            && Lookup(s.routes, k) == FoldAll(Lookup(initial, k), k.deviceID, k.routeID, SegmentsFor(s.saves, k))
            && SavesExact(c, s)
            && |SegmentsFor(s.saves, k)| == |Succeeded(c, s, k)|
  {
    PromptRunKeeps(c, initial, Initial(initial), steps);
    var s := Exec(c, Initial(initial), steps).value;
    assert Lookup(s.routes, k) == Replayed(initial, s.saves, k);
    OneSegmentPerSuccess(c, s, k);
  }

  lemma OneSegmentPerSuccess(c: Config, s: State, k: Key)
    requires SavesExact(c, s)
    ensures |SegmentsFor(s.saves, k)| == |Succeeded(c, s, k)|
  {
    SaversCount(s.saves, k);
    forall i | i in Succeeded(c, s, k) ensures i in SaversOf(s.saves, k) {
      var j :| 0 <= j < |s.saves| && s.saves[j].worker == i;
    }
    assert SaversOf(s.saves, k) == Succeeded(c, s, k);
  }

  /** After any prompt run a route's arrays have gained one entry per successful job, its numbers count
      on from those stored before, and its length has grown by the scaled sum of their distances. */
  lemma RouteCountsItsJobs(c: Config, initial: map<Key, Route>, steps: seq<Step>, k: Key)
    requires ValidConfig(c) && PromptRun(c, Initial(initial), steps)
    requires Exec(c, Initial(initial), steps).Some? && GoodRow(Lookup(initial, k))
    requires RowCount(Lookup(initial, k)) + |Succeeded(c, Exec(c, Initial(initial), steps).value, k)| <= MAX_INT64
    ensures var s := Exec(c, Initial(initial), steps).value;
            var n := |Succeeded(c, s, k)|;
            && (k in s.routes <==> k in initial || n > 0)
            && GoodRow(Lookup(s.routes, k)) && RowCount(Lookup(s.routes, k)) == RowCount(Lookup(initial, k)) + n
            && RowLength(Lookup(s.routes, k)) == RowLength(Lookup(initial, k)) + TotalMiles(SegmentsFor(s.saves, k))
  {
    NoLostUpdate(c, initial, steps, k);
    var segs := SegmentsFor(Exec(c, Initial(initial), steps).value.saves, k);
    FoldCounts(Lookup(initial, k), k.deviceID, k.routeID, segs);
    FoldSums(Lookup(initial, k), k.deviceID, k.routeID, segs);
  }

  // ----- Without the hypothesis -----

  /** The step that takes a worker on towards its end without saving. */
  function NextUnsaved(phase: Phase, i: nat): Step
    requires !phase.Done?
  {
    match phase
    case Spawned => Store(i)
    case Stored => Fail(i)
    case Holding(_, _) => FailSave(i)
    case Finishing => Delete(i)
    case Deleted => Dec(i)
  }

  function StepsLeft(phase: Phase): nat {
    match phase
    case Spawned => 5
    case Stored => 4
    case Holding(_, _) => 3
    case Finishing => 2
    case Deleted => 1
    case Done => 0
  }

  lemma UnsavedStep(c: Config, t: State, i: nat)
    requires i < |t.workers| && !t.workers[i].phase.Done?
    ensures var e := NextUnsaved(t.workers[i].phase, i);
            && Enabled(c, t, e)
            && var u := Next(c, t, e);
            && u.hand == t.hand && u.routes == t.routes && u.saves == t.saves
            && u.workers == t.workers[i := t.workers[i].(phase := u.workers[i].phase)]
            && StepsLeft(u.workers[i].phase) < StepsLeft(t.workers[i].phase)
            && u.count == t.count - (if u.workers[i].phase.Done? then 1 else 0)
  {
  }

  /** Any worker can come to its end without saving, the others and the rows left as they are. */
  lemma {:induction false} EndUnsaved(c: Config, s: State, steps: seq<Step>, t: State, i: nat)
    returns (u: State, more: seq<Step>)
    requires Exec(c, s, steps) == Some(t) && i < |t.workers| && !t.workers[i].phase.Done?
    ensures Exec(c, s, more) == Some(u) && steps <= more
    ensures u.hand == t.hand && u.count == t.count - 1 && u.routes == t.routes && u.saves == t.saves
    ensures u.workers == t.workers[i := t.workers[i].(phase := Done)]
    decreases StepsLeft(t.workers[i].phase)
  {
    u, more := Extend(c, s, steps, t, NextUnsaved(t.workers[i].phase, i));
    UnsavedStep(c, t, i);
    if !u.workers[i].phase.Done? {
      u, more := EndUnsaved(c, s, more, u, i);
    }
    assert u.workers == t.workers[i := t.workers[i].(phase := Done)];
  }

  lemma AnotherLive(ws: seq<Worker>, i: nat) returns (j: nat)
    requires i < |ws| && |Live(ws)| >= 2
    ensures j < |ws| && j != i && !ws[j].phase.Done?
  {
    var rest := Live(ws) - {i};
    SubsetSize(Live(ws), rest + {i});
    assert |rest + {i}| == |rest| + 1;
    j :| j in rest;
  }

  /** With a checked dongle in hand, a slot can become free while worker i stands still. */
  lemma FreeSlot(c: Config, s: State, steps: seq<Step>, t: State, i: nat) returns (u: State, more: seq<Step>)
    requires Exec(c, s, steps) == Some(t) && CountExact(c, t) && t.hand.Checked? && c.parallelLogParsers >= 2
    requires i < |t.workers|
    ensures Exec(c, s, more) == Some(u) && steps <= more
    ensures u.hand == t.hand && 0 <= u.count < c.parallelLogParsers && u.routes == t.routes && u.saves == t.saves
    ensures |u.workers| == |t.workers| && u.workers[i] == t.workers[i]
  {
    u, more := t, steps;
    if t.count == c.parallelLogParsers {
      var j := AnotherLive(t.workers, i);
      u, more := EndUnsaved(c, s, steps, t, j);
    }
  }

  /** Whenever a Load is not prompt and the dongle is not registered, and more than one worker is allowed
      at a time, the run can go on to two workers of that dongle between Store and Delete together,
      whether a slot is free at that moment or not. */
  lemma UnpromptLoadBreaksExclusion(c: Config, s: State, i: nat) returns (t: State, steps: seq<Step>)
    requires CountExact(c, s) && c.parallelLogParsers >= 2
    requires s.hand.Received? && s.hand.work.dongleID !in s.activeJobs
    requires i < |s.workers| && s.workers[i].phase.Spawned? && s.workers[i].work.dongleID == s.hand.work.dongleID
    ensures !PromptStep(s, Load)
    ensures [Load] <= steps && Exec(c, s, steps) == Some(t)
    ensures var j := |s.workers|;
            && |t.workers| == j + 1 && t.workers[i] == s.workers[i].(phase := Stored)
            && t.workers[j] == Worker(s.hand.work, Stored, None)
    ensures t.routes == s.routes && t.saves == s.saves && !Exclusive(t.workers)
  {
    var j := |s.workers|;
    t, steps := Extend(c, s, [], s, Load);
    assert steps == [Load] && t.hand == Checked(s.hand.work);
    t, steps := FreeSlot(c, s, steps, t, i);
    t, steps := AdmitChecked(c, s, steps, t);
    t, steps := Extend(c, s, steps, t, Store(i));
    t, steps := Extend(c, s, steps, t, Store(j));
    assert Busy(t.workers[i]) && Busy(t.workers[j]);
  }

  /** ... and from there to a lost update, when the row is stored: both workers save, and the row keeps
      only the second segment on top of what was there before. */
  lemma UnpromptLoadLosesUpdate(c: Config, s: State, i: nat, a: SegmentData, b: SegmentData)
    returns (t: State, steps: seq<Step>)
    requires CountExact(c, s) && c.parallelLogParsers >= 2
    requires s.hand.Received? && s.hand.work.dongleID !in s.activeJobs
    requires i < |s.workers| && s.workers[i].phase.Spawned? && s.workers[i].work == s.hand.work
    requires s.hand.work.dongleID in c.devices && KeyOf(c, s.hand.work) in s.routes
    ensures Exec(c, s, steps) == Some(t)
    ensures var k := KeyOf(c, s.hand.work);
            && t.saves == s.saves + [Saving(i, k, a), Saving(|s.workers|, k, b)]
            && t.routes == s.routes[k := FoldSegment(Some(s.routes[k]), k.deviceID, k.routeID, b)]
  {
    var j, k := |s.workers|, KeyOf(c, s.hand.work);
    t, steps := UnpromptLoadBreaksExclusion(c, s, i);
    t, steps := Extend(c, s, steps, t, Read(i, a));
    t, steps := Extend(c, s, steps, t, Read(j, b));
    t, steps := SaveBoth(c, s, steps, t, i, j, k, a, b);
  }

  /** Two workers that hold the same stored row save it one after the other. */
  lemma SaveBoth(
    c: Config, s: State, steps: seq<Step>, t: State, i: nat, j: nat, k: Key, a: SegmentData, b: SegmentData)
    returns (u: State, more: seq<Step>)
    requires Exec(c, s, steps) == Some(t) && k in t.routes && i < |t.workers| && j < |t.workers| && i != j
    requires t.workers[i].work.dongleID in c.devices && KeyOf(c, t.workers[i].work) == k
    requires t.workers[j].work == t.workers[i].work
    requires t.workers[i].phase == Holding(a, Some(t.routes[k])) && t.workers[j].phase == Holding(b, Some(t.routes[k]))
    ensures Exec(c, s, more) == Some(u)
    ensures u.saves == t.saves + [Saving(i, k, a), Saving(j, k, b)]
    ensures u.routes == t.routes[k := FoldSegment(Some(t.routes[k]), k.deviceID, k.routeID, b)]
  {
    u, more := Extend(c, s, steps, t, Save(i));
    assert u.workers[j] == t.workers[j];
    u, more := Extend(c, s, more, u, Save(j));
    assert u.saves == t.saves + [Saving(i, k, a), Saving(j, k, b)];
  }

  /** A worker is spawned and has not stored itself, and a second log of its device is received. */
  lemma SecondReceivedUnstored(c: Config, s: State, w: Work) returns (t: State, steps: seq<Step>)
    requires AtRest(s) && c.parallelLogParsers >= 2
    ensures Exec(c, s, steps) == Some(t)
    ensures t == s.(hand := Received(w), workers := s.workers + [Worker(w, Spawned, None)], count := 1,
                    added := s.added + multiset{w, w})
  {
    t, steps := SecondQueued(c, s, w);
    t, steps := AdmitHand(c, s, steps, t);
    t, steps := Extend(c, s, steps, t, Receive);
  }

  lemma SecondQueued(c: Config, s: State, w: Work) returns (t: State, steps: seq<Step>)
    requires AtRest(s)
    ensures Exec(c, s, steps) == Some(t)
    ensures t == s.(queue := [w], hand := Received(w), added := s.added + multiset{w, w})
  {
    t, steps := ReceiveOne(c, s, w);
    t, steps := Extend(c, s, steps, t, Add(w));
    t, steps := Extend(c, s, steps, t, Enqueue(w));
    assert t.blocked == multiset{} && t.queue == [w];
    assert t.added == s.added + multiset{w, w};
  }

  /** Such a run exists from every state at rest in which the device's row is stored, the initial one
      among them: two logs of one device, two slots, both jobs succeed, and the first one's segment is
      gone from the row. */
  lemma LostUpdateRun(c: Config, s: State, w: Work, a: SegmentData, b: SegmentData)
    returns (t: State, steps: seq<Step>)
    requires CountExact(c, s) && AtRest(s)
    requires c.parallelLogParsers >= 2 && w.dongleID in c.devices && KeyOf(c, w) in s.routes
    ensures Exec(c, s, steps) == Some(t)
    ensures var k, i := KeyOf(c, w), |s.workers|;
            && t.saves == s.saves + [Saving(i, k, a), Saving(i + 1, k, b)]
            && t.routes == s.routes[k := FoldSegment(Some(s.routes[k]), k.deviceID, k.routeID, b)]
  {
    var u, first := SecondReceivedUnstored(c, s, w);
    RunKeepsCount(c, s, first);
    var more;
    t, more := UnpromptLoadLosesUpdate(c, u, |s.workers|, a, b);
    ExecConcat(c, s, first, more);
    steps := first + more;
  }
}
