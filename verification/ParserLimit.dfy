/** Exactly when the log queue keeps its promises whatever the schedule: when the configuration allows
    one worker at a time. */
module ParserLimit {
  import opened Prelude
  import opened Decoder
  import opened Routes
  import opened Dispatch
  import opened PromptDispatch
  import opened LogQueues

  // ----- One worker at a time -----

  ghost predicate OneLive(ws: seq<Worker>) {
    forall i, j | 0 <= i < j < |ws| :: ws[i].phase.Done? || ws[j].phase.Done?
  }

  lemma CountBoundsLive(c: Config, s: State)
    requires CountExact(c, s) && c.parallelLogParsers <= 1
    ensures OneLive(s.workers)
    ensures s.hand.Starting? ==> forall i: nat | i < |s.workers| :: s.workers[i].phase.Done?
  {
    var live := Live(s.workers);
    forall i, j | 0 <= i < j < |s.workers| && !s.workers[i].phase.Done? && !s.workers[j].phase.Done?
      ensures false
    {
      assert {i, j} <= live;
      SubsetSize({i, j}, live);
    }
    if s.hand.Starting? {
      assert live == {};
      forall i: nat | i < |s.workers| ensures s.workers[i].phase.Done? {
        assert i !in live;
      }
    }
  }

  /** The worker in the section, of which there is one at most, is registered. */
  lemma StepKeepsRegistered(c: Config, s: State, e: Step)
    requires OneLive(s.workers) && Registered(s) && Enabled(c, s, e)
    ensures Registered(Next(c, s, e))
  {
    var t := Next(c, s, e);
    if Moved(e).Some? {
      var i := Moved(e).value;
      WorkerStepFrame(c, s, e);
      forall j: nat | j < |t.workers| && j != i ensures !InSection(t.workers[j]) {
        assert t.workers[j] == s.workers[j];
      }
    } else {
      assert t.activeJobs == s.activeJobs && forall j: nat | j < |s.workers| :: t.workers[j] == s.workers[j];
    }
  }

  ghost predicate RowsInv(c: Config, initial: map<Key, Route>, s: State) {
    SavesExact(c, s) && RowsReplay(initial, s) && HeldRowsCurrent(c, s)
  }

  ghost predicate OneParserInv(c: Config, initial: map<Key, Route>, s: State) {
    Inv(c, s) && Registered(s) && RowsInv(c, initial, s)
  }

  lemma OneLiveIsExclusive(ws: seq<Worker>)
    requires OneLive(ws)
    ensures Exclusive(ws)
  {
  }

  lemma StepKeepsRows(c: Config, initial: map<Key, Route>, s: State, e: Step)
    requires ValidConfig(c) && Exclusive(s.workers) && Enabled(c, s, e) && RowsInv(c, initial, s)
    ensures RowsInv(c, initial, Next(c, s, e))
  {
    StepKeepsSaves(c, s, e);
    StepReplays(c, initial, s, e);
  }

  lemma OneParserStepKeeps(c: Config, initial: map<Key, Route>, s: State, e: Step)
    requires ValidConfig(c) && OneLive(s.workers) && Enabled(c, s, e) && OneParserInv(c, initial, s)
    ensures OneParserInv(c, initial, Next(c, s, e))
  {
    OneLiveIsExclusive(s.workers);
    StepKeepsInvariant(c, s, e);
    StepKeepsRegistered(c, s, e);
    StepKeepsRows(c, initial, s, e);
  }

  lemma {:induction false} OneParserRunKeeps(c: Config, initial: map<Key, Route>, s: State, steps: seq<Step>)
    requires ValidConfig(c) && c.parallelLogParsers <= 1 && Exec(c, s, steps).Some? && OneParserInv(c, initial, s)
    ensures OneParserInv(c, initial, Exec(c, s, steps).value)
    decreases |steps|
  {
    if steps != [] {
      CountBoundsLive(c, s);
      OneParserStepKeeps(c, initial, s, steps[0]);
      OneParserRunKeeps(c, initial, Next(c, s, steps[0]), steps[1..]);
    }
  }

  /** With at most one worker at a time every interleaving keeps what prompt runs keep in general:
      exclusion, exact keys, and rows that are the sequential fold of exactly the successful jobs. */
  lemma OneParserKeepsAll(c: Config, initial: map<Key, Route>, steps: seq<Step>, k: Key)
    requires ValidConfig(c) && c.parallelLogParsers <= 1 && Exec(c, Initial(initial), steps).Some?
    ensures var s := Exec(c, Initial(initial), steps).value;
            && Excluding(s) && SavesExact(c, s) && UpdatesKept(initial, s, k)
            && (forall d :: d in s.activeJobs <==>
                  exists i: nat :: i < |s.workers| && InSection(s.workers[i]) && s.workers[i].work.dongleID == d)
            && |SegmentsFor(s.saves, k)| == |Succeeded(c, s, k)|
  {
    InitialInv(c, initial);
    OneParserRunKeeps(c, initial, Initial(initial), steps);
    var s := Exec(c, Initial(initial), steps).value;
    CountBoundsLive(c, s);
    assert Lookup(s.routes, k) == Replayed(initial, s.saves, k);
    OneSegmentPerSuccess(c, s, k);
  }

  // ----- Exactly when exclusion holds -----

  /** No two workers of one dongle are between Store and Delete. */
  ghost predicate Excluding(s: State) {
    forall i, j | 0 <= i < j < |s.workers| && InSection(s.workers[i]) && InSection(s.workers[j]) ::
      s.workers[i].work.dongleID != s.workers[j].work.dongleID
  }

  lemma TwoParsersBreakExclusion(c: Config, initial: map<Key, Route>, w: Work) returns (t: State, steps: seq<Step>)
    requires c.parallelLogParsers >= 2
    ensures Exec(c, Initial(initial), steps) == Some(t) && !Excluding(t)
    ensures forall i | 0 <= i < |t.workers| :: t.workers[i].work == w
  {
    var s := Initial(initial);
    InitialInv(c, initial);
    var u, first := SecondReceivedUnstored(c, s, w);
    RunKeepsCount(c, s, first);
    var more;
    t, more := UnpromptLoadBreaksExclusion(c, u, 0);
    ExecConcat(c, s, first, more);
    steps := first + more;
    assert InSection(t.workers[0]) && InSection(t.workers[1]);
  }

  /** With any dongle registered: every interleaving keeps per-dongle exclusion if and only if at most
      one parser is configured. */
  lemma ExclusionIffOneParser(c: Config, initial: map<Key, Route>, w: Work)
    requires ValidConfig(c) && w.dongleID in c.devices
    ensures (forall steps :: Exec(c, Initial(initial), steps).Some? ==>
                               Excluding(Exec(c, Initial(initial), steps).value))
            <==> c.parallelLogParsers <= 1
  {
    if c.parallelLogParsers <= 1 {
      forall steps | Exec(c, Initial(initial), steps).Some?
        ensures Excluding(Exec(c, Initial(initial), steps).value)
      {
        OneParserKeepsAll(c, initial, steps, Key(0, ""));
      }
    } else {
      var t, steps := TwoParsersBreakExclusion(c, initial, w);
    }
  }

  // ----- Exactly when no update is lost -----

  /** The row is the sequential fold of the segments saved for it. */
  ghost predicate UpdatesKept(initial: map<Key, Route>, s: State, k: Key) {
    Lookup(s.routes, k) == FoldAll(Lookup(initial, k), k.deviceID, k.routeID, SegmentsFor(s.saves, k))
  }

  lemma LostUpdateShows(initial: map<Key, Route>, s: State, t: State, k: Key, i: nat, a: SegmentData, b: SegmentData)
    requires k in s.routes && UpdatesKept(initial, s, k)
    requires t.saves == s.saves + [Saving(i, k, a), Saving(i + 1, k, b)]
    requires t.routes == s.routes[k := FoldSegment(Some(s.routes[k]), k.deviceID, k.routeID, b)]
    ensures !UpdatesKept(initial, t, k)
  {
    var saves1 := s.saves + [Saving(i, k, a)];
    assert t.saves == saves1 + [Saving(i + 1, k, b)];
    ReplayedSnoc(initial, s.saves, Saving(i, k, a), k);
    ReplayedSnoc(initial, saves1, Saving(i + 1, k, b), k);
    var row := s.routes[k];
    var kept := FoldSegment(Some(FoldSegment(Some(row), k.deviceID, k.routeID, a)), k.deviceID, k.routeID, b);
    assert |kept.segmentNumbers| == |row.segmentNumbers| + 2;
    assert |t.routes[k].segmentNumbers| == |row.segmentNumbers| + 1;
  }

  /** A row that is not stored yet can be stored by a first job. */
  lemma StoreRow(c: Config, initial: map<Key, Route>, w: Work, a: SegmentData) returns (t: State, steps: seq<Step>)
    requires c.parallelLogParsers >= 1 && w.dongleID in c.devices && SaveTaken(c, initial, w)
    ensures Exec(c, Initial(initial), steps) == Some(t) && AtRest(t)
    ensures KeyOf(c, w) in t.routes && UpdatesKept(initial, t, KeyOf(c, w))
  {
    var s, k := Initial(initial), KeyOf(c, w);
    var u, first := StartOne(c, s, w);
    var more := FinishedRun(c, u, 0, Some(a));
    t := Finished(c, u, 0, Some(a));
    ExecConcat(c, s, first, more);
    steps := first + more;
    assert t.activeJobs == map[];
    assert t.saves == [] + [Saving(0, k, a)];
    ReplayedSnoc(initial, [], Saving(0, k, a), k);
    assert Replayed(initial, [], k) == Lookup(initial, k);
  }

  lemma TwoParsersLoseUpdate(c: Config, initial: map<Key, Route>, w: Work) returns (t: State, steps: seq<Step>)
    requires c.parallelLogParsers >= 2 && w.dongleID in c.devices && SaveTaken(c, initial, w)
    ensures Exec(c, Initial(initial), steps) == Some(t) && !UpdatesKept(initial, t, KeyOf(c, w))
  {
    var s, k := Initial(initial), KeyOf(c, w);
    InitialInv(c, initial);
    var u, first := StoreRow(c, initial, w, EMPTY_SEGMENT);
    RunKeepsCount(c, s, first);
    var more;
    t, more := LostUpdateRun(c, u, w, EMPTY_SEGMENT, EMPTY_SEGMENT);
    ExecConcat(c, s, first, more);
    steps := first + more;
    LostUpdateShows(initial, u, t, k, |u.workers|, EMPTY_SEGMENT, EMPTY_SEGMENT);
  }

  /** No row is stored under the key and another device's row has its route id. */
  ghost predicate Refused(c: Config, s: State, k: Key) {
    && k !in s.routes && (exists other :: other in s.routes && other.routeID == k.routeID)
    && SegmentsFor(s.saves, k) == []
    && forall i: nat | i < |s.workers| && s.workers[i].phase.Holding? && s.workers[i].work.dongleID in c.devices
                       && KeyOf(c, s.workers[i].work) == k :: s.workers[i].phase.row.None?
  }

  lemma StepKeepsRefused(c: Config, s: State, e: Step, k: Key)
    requires Refused(c, s, k) && Enabled(c, s, e)
    ensures Refused(c, Next(c, s, e), k)
  {
    var t := Next(c, s, e);
    if e.Save? {
      assert KeyOf(c, s.workers[e.worker].work) != k;
      assert t.saves[..|s.saves|] == s.saves;
      var other :| other in s.routes && other.routeID == k.routeID;
      assert other in t.routes;
    } else {
      assert t.routes == s.routes && t.saves == s.saves;
    }
  }

  lemma {:induction false} RunKeepsRefused(c: Config, s: State, steps: seq<Step>, k: Key)
    requires Refused(c, s, k) && Exec(c, s, steps).Some?
    ensures Refused(c, Exec(c, s, steps).value, k)
    decreases |steps|
  {
    if steps != [] {
      StepKeepsRefused(c, s, steps[0], k);
      RunKeepsRefused(c, Next(c, s, steps[0]), steps[1..], k);
    }
  }

  lemma NothingSavedWhenRefused(c: Config, initial: map<Key, Route>, steps: seq<Step>, k: Key)
    requires !SaveAccepted(Lookup(initial, k), initial, k) && Exec(c, Initial(initial), steps).Some?
    ensures k !in Exec(c, Initial(initial), steps).value.routes
    ensures UpdatesKept(initial, Exec(c, Initial(initial), steps).value, k)
  {
    RunKeepsRefused(c, Initial(initial), steps, k);
  }

  /** For a registered dongle's route: no interleaving loses an update of its row if and only if at most
      one parser is configured, or its row can never be saved because another device has the route id. */
  lemma NoUpdateLostIffOneParser(c: Config, initial: map<Key, Route>, w: Work)
    requires ValidConfig(c) && w.dongleID in c.devices
    ensures (forall steps :: Exec(c, Initial(initial), steps).Some? ==>
                               UpdatesKept(initial, Exec(c, Initial(initial), steps).value, KeyOf(c, w)))
            <==> c.parallelLogParsers <= 1 || !SaveTaken(c, initial, w)
  {
    var k := KeyOf(c, w);
    if c.parallelLogParsers <= 1 || !SaveTaken(c, initial, w) {
      forall steps | Exec(c, Initial(initial), steps).Some?
        ensures UpdatesKept(initial, Exec(c, Initial(initial), steps).value, k)
      {
        if c.parallelLogParsers <= 1 {
          OneParserKeepsAll(c, initial, steps, k);
        } else {
          NothingSavedWhenRefused(c, initial, steps, k);
        }
      }
    } else {
      var t, steps := TwoParsersLoseUpdate(c, initial, w);
    }
  }
}
