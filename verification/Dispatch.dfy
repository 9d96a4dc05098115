/** The log queue of internal/logparser/queue.go as a transition system: producers, the dispatcher
    loop and the workers it spawns, each step one shared-memory or channel operation of the code. */
module Dispatch {
  import opened Prelude
  import opened MachineInts
  import opened Decoder
  import opened Routes

  const QUEUE_DEPTH: nat := 100

  datatype Work = Work(path: string, dongleID: string, routeID: string)

  /** A route row is found by the device's id and the route id. */
  datatype Key = Key(deviceID: nat, routeID: string)

  datatype Config = Config(parallelLogParsers: uint64, devices: map<string, nat>)

  /** Dongle ids are unique in the device table, so they name different devices. */
  ghost predicate ValidConfig(c: Config) {
    forall d, e | d in c.devices && e in c.devices && d != e :: c.devices[d] != c.devices[e]
  }

  function KeyOf(c: Config, w: Work): Key
    requires w.dongleID in c.devices
  {
    Key(c.devices[w.dongleID], w.routeID)
  }

  /** Where a worker goroutine stands: before its Store, before reading the row, between reading and
      saving it, before its Delete, before its Dec, and finished. */
  datatype Phase =
    | Spawned
    | Stored
    | Holding(segment: SegmentData, row: Option<Route>)
    | Finishing
    | Deleted
    | Done

  /** saved is the segment the worker saved into its route row, if it succeeded. */
  datatype Worker = Worker(work: Work, phase: Phase, saved: Option<SegmentData>)

  /** Between Store and Delete. */
  predicate InSection(w: Worker) { w.phase.Stored? || w.phase.Holding? || w.phase.Finishing? }

  /** The dispatcher: waiting, after the receive, after a Load that missed, after the count was
      compared, after Inc, and about to put the work back. */
  datatype Hand =
    | Idle
    | Received(work: Work)
    | Checked(work: Work)
    | Admitted(work: Work)
    | Starting(work: Work)
    | Requeueing(work: Work)

  datatype Saving = Saving(worker: nat, key: Key, segment: SegmentData)

  /** The shared state. added and saves are histories: every work handed to AddLog, and every
      successful save in the order of the saves. */
  datatype State = State(
    blocked: multiset<Work>, queue: seq<Work>, hand: Hand, count: int,
    activeJobs: map<string, nat>, workers: seq<Worker>, routes: map<Key, Route>,
    added: multiset<Work>, saves: seq<Saving>)

  function Initial(routes: map<Key, Route>): State {
    State(multiset{}, [], Idle, 0, map[], [], routes, multiset{}, [])
  }

  datatype Step =
    | Add(work: Work)          // AddLog is called
    | Enqueue(work: Work)      // its channel send completes
    | Receive                  // range q.queue
    | Load                     // q.activeJobs.Load
    | Compare                  // q.activeJobsCount.Value() < ParallelLogParsers
    | Inc
    | Spawn                    // go func()
    | Requeue                  // q.queue <- work
    | Store(worker: nat)
    | Read(worker: nat, segment: SegmentData)   // the log decoded to this, and the row was read
    | Fail(worker: nat)        // any error before the row was read
    | Save(worker: nat)
    | FailSave(worker: nat)
    | Delete(worker: nat)
    | Dec(worker: nat)

  /** Whether the database takes a row that was built from what the worker had read: a stored row is
      updated by its primary key, a new one is inserted and its route id has to be unique. */
  predicate SaveAccepted(row: Option<Route>, routes: map<Key, Route>, k: Key) {
    row.Some? || forall other | other in routes :: other.routeID != k.routeID
  }

  predicate Enabled(c: Config, s: State, e: Step) {
    match e
    case Add(_) => true
    case Enqueue(w) => w in s.blocked && |s.queue| < QUEUE_DEPTH
    case Receive => s.hand.Idle? && s.queue != []
    case Load => s.hand.Received?
    case Compare => s.hand.Checked?
    case Inc => s.hand.Admitted?
    case Spawn => s.hand.Starting?
    case Requeue => s.hand.Requeueing? && |s.queue| < QUEUE_DEPTH
    case Store(i) => i < |s.workers| && s.workers[i].phase.Spawned?
    case Read(i, _) => i < |s.workers| && s.workers[i].phase.Stored? && s.workers[i].work.dongleID in c.devices
    case Fail(i) => i < |s.workers| && s.workers[i].phase.Stored?
    case Save(i) =>
      && i < |s.workers| && s.workers[i].phase.Holding? && s.workers[i].work.dongleID in c.devices
      && SaveAccepted(s.workers[i].phase.row, s.routes, KeyOf(c, s.workers[i].work))
    case FailSave(i) => i < |s.workers| && s.workers[i].phase.Holding?
    case Delete(i) => i < |s.workers| && s.workers[i].phase.Finishing?
    case Dec(i) => i < |s.workers| && s.workers[i].phase.Deleted?
  }

  function AtPhase(s: State, i: nat, p: Phase): State
    requires i < |s.workers|
  {
    s.(workers := s.workers[i := s.workers[i].(phase := p)])
  }

  /** The effect of saving: the whole row is written back from what the worker had read. */
  function AfterSave(c: Config, s: State, i: nat): State
    requires i < |s.workers| && s.workers[i].phase.Holding? && s.workers[i].work.dongleID in c.devices
  {
    var w := s.workers[i];
    var k := KeyOf(c, w.work);
    var row := FoldSegment(w.phase.row, k.deviceID, k.routeID, w.phase.segment);
    s.(workers := s.workers[i := Worker(w.work, Finishing, Some(w.phase.segment))],
       routes := s.routes[k := row],
       saves := s.saves + [Saving(i, k, w.phase.segment)])
  }

  function Next(c: Config, s: State, e: Step): State
    requires Enabled(c, s, e)
  {
    match e
    case Add(w) => s.(blocked := s.blocked + multiset{w}, added := s.added + multiset{w})
    case Enqueue(w) => s.(blocked := s.blocked - multiset{w}, queue := s.queue + [w])
    case Receive => s.(hand := Received(s.queue[0]), queue := s.queue[1..])
    case Load =>
      s.(hand := if s.hand.work.dongleID in s.activeJobs then Requeueing(s.hand.work) else Checked(s.hand.work))
    case Compare =>
      s.(hand := if WrapUint64(s.count) < c.parallelLogParsers then Admitted(s.hand.work)
                 else Requeueing(s.hand.work))
    case Inc => s.(hand := Starting(s.hand.work), count := s.count + 1)
    case Spawn => s.(hand := Idle, workers := s.workers + [Worker(s.hand.work, Spawned, None)])
    case Requeue => s.(hand := Idle, queue := s.queue + [s.hand.work])
    case Store(i) => AtPhase(s, i, Stored).(activeJobs := s.activeJobs[s.workers[i].work.dongleID := i])
    case Read(i, seg) => AtPhase(s, i, Holding(seg, Lookup(s.routes, KeyOf(c, s.workers[i].work))))
    case Fail(i) => AtPhase(s, i, Finishing)
    case Save(i) => AfterSave(c, s, i)
    case FailSave(i) => AtPhase(s, i, Finishing)
    case Delete(i) => AtPhase(s, i, Deleted).(activeJobs := s.activeJobs - {s.workers[i].work.dongleID})
    case Dec(i) => AtPhase(s, i, Done).(count := s.count - 1)
  }

  /** A run: the state after the steps, if each was enabled in turn. */
  function Exec(c: Config, s: State, steps: seq<Step>): Option<State>
    decreases |steps|
  {
    if steps == [] then Some(s)
    else if Enabled(c, s, steps[0]) then Exec(c, Next(c, s, steps[0]), steps[1..])
    else None
  }

  lemma {:induction false} ExecConcat(c: Config, s: State, a: seq<Step>, b: seq<Step>)
    requires Exec(c, s, a).Some?
    ensures Exec(c, s, a + b) == Exec(c, Exec(c, s, a).value, b)
    decreases |a|
  {
    if a == [] {
      assert a + b == b;
    } else {
      assert (a + b)[1..] == a[1..] + b;
      ExecConcat(c, Next(c, s, a[0]), a[1..], b);
    }
  }

  // ----- Counting, under every interleaving -----

  ghost function Live(ws: seq<Worker>): set<nat> {
    set i: nat | i < |ws| && !ws[i].phase.Done?
  }

  lemma SubsetSize(a: set<nat>, b: set<nat>)
    requires a <= b
    ensures |a| <= |b|
  {
    assert b == a + (b - a);
  }

  function Works(ws: seq<Worker>): (r: seq<Work>)
    ensures |r| == |ws| && forall i | 0 <= i < |ws| :: r[i] == ws[i].work
  {
    seq(|ws|, i requires 0 <= i < |ws| => ws[i].work)
  }

  function InHand(h: Hand): multiset<Work> {
    if h.Idle? then multiset{} else multiset{h.work}
  }

  /** The count is the number of workers not yet Dec'd, plus the one being started. */
  ghost predicate CountExact(c: Config, s: State) {
    && s.count == |Live(s.workers)| + (if s.hand.Starting? then 1 else 0)
    && s.count <= c.parallelLogParsers
    && (s.hand.Admitted? ==> s.count < c.parallelLogParsers)
  }

  /** Every key of activeJobs is the dongle of the worker it points to, which is between Store and Delete. */
  ghost predicate KeysActive(s: State) {
    forall d | d in s.activeJobs ::
      && s.activeJobs[d] < |s.workers|
      && InSection(s.workers[s.activeJobs[d]])
      && s.workers[s.activeJobs[d]].work.dongleID == d
  }

  /** No work is lost or duplicated. */
  ghost predicate Conserved(s: State) {
    s.added == s.blocked + multiset(s.queue) + InHand(s.hand) + multiset(Works(s.workers))
  }

  ghost predicate Inv(c: Config, s: State) {
    CountExact(c, s) && KeysActive(s) && Conserved(s) && |s.queue| <= QUEUE_DEPTH
  }

  predicate ChangesOnlyPhase(ws: seq<Worker>, vs: seq<Worker>, i: nat) {
    && i < |ws| && |ws| == |vs| && ws[i].work == vs[i].work
    && vs == ws[i := vs[i]]
  }

  lemma PhaseChange(ws: seq<Worker>, vs: seq<Worker>, i: nat)
    requires ChangesOnlyPhase(ws, vs, i)
    ensures Works(vs) == Works(ws)
    ensures !ws[i].phase.Done? && !vs[i].phase.Done? ==> Live(vs) == Live(ws)
    ensures !ws[i].phase.Done? && vs[i].phase.Done? ==> Live(vs) == Live(ws) - {i} && |Live(vs)| == |Live(ws)| - 1
  {
    if !ws[i].phase.Done? && vs[i].phase.Done? {
      assert Live(vs) == Live(ws) - {i};
    }
    if !ws[i].phase.Done? && !vs[i].phase.Done? {
      assert Live(vs) == Live(ws);
    }
  }

  lemma WorkerAdded(ws: seq<Worker>, w: Worker)
    requires !w.phase.Done?
    ensures Works(ws + [w]) == Works(ws) + [w.work]
    ensures |Live(ws + [w])| == |Live(ws)| + 1
  {
    assert Live(ws + [w]) == Live(ws) + {|ws|} && |ws| !in Live(ws);
  }

  /** The worker a step moves, if it is a worker step. */
  function Moved(e: Step): Option<nat> {
    match e
    case Store(i) => Some(i)
    case Read(i, _) => Some(i)
    case Fail(i) => Some(i)
    case Save(i) => Some(i)
    case FailSave(i) => Some(i)
    case Delete(i) => Some(i)
    case Dec(i) => Some(i)
    case _ => None
  }

  lemma WorkerStepFrame(c: Config, s: State, e: Step)
    requires Enabled(c, s, e) && Moved(e).Some?
    ensures var t, i := Next(c, s, e), Moved(e).value;
            && t.blocked == s.blocked && t.queue == s.queue && t.hand == s.hand && t.added == s.added
            && ChangesOnlyPhase(s.workers, t.workers, i)
            && !s.workers[i].phase.Done?
            && (t.workers[i].phase.Done? <==> e.Dec?)
            && t.count == s.count - (if e.Dec? then 1 else 0)
  {
  }

  lemma StepKeepsCount(c: Config, s: State, e: Step)
    requires CountExact(c, s) && Enabled(c, s, e)
    ensures CountExact(c, Next(c, s, e))
  {
    var t := Next(c, s, e);
    if Moved(e).Some? {
      WorkerStepFrame(c, s, e);
      PhaseChange(s.workers, t.workers, Moved(e).value);
    } else if e.Spawn? {
      WorkerAdded(s.workers, t.workers[|s.workers|]);
    } else if e.Compare? {
      WrapIsIdentityInRange(s.count);
    }
  }

  lemma {:induction false} RunKeepsCount(c: Config, s: State, steps: seq<Step>)
    requires CountExact(c, s) && Exec(c, s, steps).Some?
    ensures CountExact(c, Exec(c, s, steps).value)
    decreases |steps|
  {
    if steps != [] {
      StepKeepsCount(c, s, steps[0]);
      RunKeepsCount(c, Next(c, s, steps[0]), steps[1..]);
    }
  }

  lemma StepConserves(c: Config, s: State, e: Step)
    requires Conserved(s) && Enabled(c, s, e)
    ensures Conserved(Next(c, s, e))
  {
    if Moved(e).Some? {
      WorkerStepConserves(c, s, e);
    } else if e.Spawn? {
      SpawnConserves(c, s);
    } else if e.Load? || e.Compare? || e.Inc? {
      HandStepConserves(c, s, e);
    } else {
      ChannelStepConserves(c, s, e);
    }
  }

  lemma WorkerStepConserves(c: Config, s: State, e: Step)
    requires Conserved(s) && Enabled(c, s, e) && Moved(e).Some?
    ensures Conserved(Next(c, s, e))
  {
    WorkerStepFrame(c, s, e);
    PhaseChange(s.workers, Next(c, s, e).workers, Moved(e).value);
  }

  lemma HandStepConserves(c: Config, s: State, e: Step)
    requires Conserved(s) && Enabled(c, s, e) && (e.Load? || e.Compare? || e.Inc?)
    ensures Conserved(Next(c, s, e))
  {
    var t := Next(c, s, e);
    assert InHand(t.hand) == InHand(s.hand);
    assert t.blocked == s.blocked && t.queue == s.queue && t.workers == s.workers && t.added == s.added;
  }

  lemma ChannelStepConserves(c: Config, s: State, e: Step)
    requires Conserved(s) && Enabled(c, s, e) && (e.Add? || e.Enqueue? || e.Receive? || e.Requeue?)
    ensures Conserved(Next(c, s, e))
  {
    match e
    case Add(w) =>
    case Enqueue(w) => EnqueueConserves(c, s, w);
    case Receive => ReceiveConserves(c, s);
    case Requeue => assert multiset(s.queue + [s.hand.work]) == multiset(s.queue) + multiset{s.hand.work};
  }

  lemma EnqueueConserves(c: Config, s: State, w: Work)
    requires Conserved(s) && Enabled(c, s, Enqueue(w))
    ensures Conserved(Next(c, s, Enqueue(w)))
  {
    assert multiset(s.queue + [w]) == multiset(s.queue) + multiset{w};
    Moving(s.blocked, multiset(s.queue), w);
  }

  lemma ReceiveConserves(c: Config, s: State)
    requires Conserved(s) && Enabled(c, s, Receive)
    ensures Conserved(Next(c, s, Receive))
  {
    assert s.queue == [s.queue[0]] + s.queue[1..];
    assert multiset(s.queue) == multiset{s.queue[0]} + multiset(s.queue[1..]);
  }

  lemma Moving(from: multiset<Work>, to: multiset<Work>, w: Work)
    requires w in from
    ensures (from - multiset{w}) + (to + multiset{w}) == from + to
  {
  }

  lemma SpawnConserves(c: Config, s: State)
    requires Conserved(s) && Enabled(c, s, Spawn)
    ensures Conserved(Next(c, s, Spawn))
  {
    WorkerAdded(s.workers, Worker(s.hand.work, Spawned, None));
  }

  lemma DispatcherStepKeepsKeys(c: Config, s: State, e: Step)
    requires KeysActive(s) && Enabled(c, s, e) && Moved(e).None?
    ensures KeysActive(Next(c, s, e))
  {
    var t := Next(c, s, e);
    assert t.activeJobs == s.activeJobs && forall i: nat | i < |s.workers| :: t.workers[i] == s.workers[i];
  }

  lemma WorkerStepKeepsKeys(c: Config, s: State, e: Step)
    requires KeysActive(s) && Enabled(c, s, e) && Moved(e).Some?
    ensures KeysActive(Next(c, s, e))
  {
    var t, i := Next(c, s, e), Moved(e).value;
    WorkerStepFrame(c, s, e);
    if !e.Store? && !e.Delete? {
      assert t.activeJobs == s.activeJobs && InSection(t.workers[i]) == InSection(s.workers[i]);
    }
  }

  lemma StepKeepsKeys(c: Config, s: State, e: Step)
    requires KeysActive(s) && Enabled(c, s, e)
    ensures KeysActive(Next(c, s, e))
  {
    if Moved(e).None? {
      DispatcherStepKeepsKeys(c, s, e);
    } else {
      WorkerStepKeepsKeys(c, s, e);
    }
  }

  lemma StepKeepsInvariant(c: Config, s: State, e: Step)
    requires Inv(c, s) && Enabled(c, s, e)
    ensures Inv(c, Next(c, s, e))
  {
    StepKeepsCount(c, s, e);
    StepConserves(c, s, e);
    StepKeepsKeys(c, s, e);
  }

  lemma {:induction false} RunKeepsInvariant(c: Config, s: State, steps: seq<Step>)
    requires Inv(c, s) && Exec(c, s, steps).Some?
    ensures Inv(c, Exec(c, s, steps).value)
    decreases |steps|
  {
    if steps != [] {
      StepKeepsInvariant(c, s, steps[0]);
      RunKeepsInvariant(c, Next(c, s, steps[0]), steps[1..]);
    }
  }

  lemma InitialInv(c: Config, routes: map<Key, Route>)
    ensures Inv(c, Initial(routes))
  {
    assert Live(Initial(routes).workers) == {};
  }

  lemma {:induction false} InjectionSize(m: map<string, nat>, targets: set<nat>)
    requires forall d | d in m :: m[d] in targets
    requires forall d, e | d in m && e in m && d != e :: m[d] != m[e]
    ensures |m| <= |targets|
    decreases |m|
  {
    if m != map[] {
      var d :| d in m;
      var rest := m - {d};
      assert |rest| == |m| - 1 by { assert rest.Keys == m.Keys - {d}; }
      InjectionSize(rest, targets - {m[d]});
    }
  }

  /** The parallelism bound, in every state of every interleaving: the count is exact, lies between
      zero and the configured limit, and bounds the number of active dongles, each of which belongs
      to a worker between its Store and its Delete. */
  lemma ParallelismBound(c: Config, routes: map<Key, Route>, steps: seq<Step>)
    requires Exec(c, Initial(routes), steps).Some?
    ensures var s := Exec(c, Initial(routes), steps).value;
            && s.count == |Live(s.workers)| + (if s.hand.Starting? then 1 else 0)
            && 0 <= |s.activeJobs| <= s.count <= c.parallelLogParsers
            && forall d | d in s.activeJobs ::
                 exists i: nat :: i < |s.workers| && InSection(s.workers[i]) && s.workers[i].work.dongleID == d
  {
    InitialInv(c, routes);
    RunKeepsInvariant(c, Initial(routes), steps);
    var s := Exec(c, Initial(routes), steps).value;
    InjectionSize(s.activeJobs, Live(s.workers));
  }

  /** Conservation, in every state of every interleaving. */
  lemma Conservation(c: Config, routes: map<Key, Route>, steps: seq<Step>)
    requires Exec(c, Initial(routes), steps).Some?
    ensures Conserved(Exec(c, Initial(routes), steps).value)
  {
    InitialInv(c, routes);
    RunKeepsInvariant(c, Initial(routes), steps);
  }

  // ----- When the dispatcher's own re-enqueue blocks -----

  /** The works not yet handed to a worker. */
  function Pending(s: State): nat { |s.blocked| + |s.queue| + |InHand(s.hand)| }

  /** The dispatcher, the only receiver, waits to send into a full queue. */
  predicate Wedged(s: State) { s.hand.Requeueing? && |s.queue| == QUEUE_DEPTH }

  lemma PendingStep(c: Config, s: State, e: Step)
    requires Enabled(c, s, e)
    ensures Pending(Next(c, s, e)) == Pending(s) + (if e.Add? then 1 else if e.Spawn? then -1 else 0)
  {
  }

  /** While at most 100 works are pending, putting a work back never blocks. */
  lemma RequeueNeverBlocks(c: Config, s: State)
    requires s.hand.Requeueing? && Pending(s) <= 100
    ensures Enabled(c, s, Requeue)
  {
  }

  lemma WedgedStep(c: Config, s: State, e: Step)
    requires Wedged(s) && Enabled(c, s, e)
    ensures var t := Next(c, s, e);
            t.hand == s.hand && t.queue == s.queue && |t.workers| == |s.workers|
  {
  }

  /** Once wedged, wedged in every continuation: nothing is received or started any more. */
  lemma {:induction false} WedgedForever(c: Config, s: State, steps: seq<Step>)
    requires Wedged(s) && Exec(c, s, steps).Some?
    ensures var t := Exec(c, s, steps).value;
            Wedged(t) && t.hand == s.hand && t.queue == s.queue && |t.workers| == |s.workers|
    decreases |steps|
  {
    if steps != [] {
      WedgedStep(c, s, steps[0]);
      WedgedForever(c, Next(c, s, steps[0]), steps[1..]);
    }
  }

  predicate NoAdds(steps: seq<Step>) { forall i | 0 <= i < |steps| :: !steps[i].Add? }

  lemma {:induction false} PendingNeverGrows(c: Config, s: State, steps: seq<Step>)
    requires NoAdds(steps) && Exec(c, s, steps).Some?
    ensures Pending(Exec(c, s, steps).value) <= Pending(s)
    decreases |steps|
  {
    if steps != [] {
      PendingStep(c, s, steps[0]);
      assert !steps[0].Add?;
      PendingNeverGrows(c, Next(c, s, steps[0]), steps[1..]);
    }
  }

  lemma {:induction false} ProducersFillTheQueue(c: Config, s: State) returns (steps: seq<Step>)
    requires s.hand.Requeueing? && |s.queue| <= QUEUE_DEPTH && Pending(s) > QUEUE_DEPTH
    ensures NoAdds(steps) && Exec(c, s, steps).Some? && Wedged(Exec(c, s, steps).value)
    decreases QUEUE_DEPTH - |s.queue|
  {
    if |s.queue| == QUEUE_DEPTH {
      steps := [];
    } else {
      assert |s.blocked| > 0;
      var w :| w in s.blocked;
      var t := Next(c, s, Enqueue(w));
      PendingStep(c, s, Enqueue(w));
      var rest := ProducersFillTheQueue(c, t);
      steps := [Enqueue(w)] + rest;
      assert steps[1..] == rest;
    }
  }

  /** Exactly when a re-enqueue can wedge the dispatcher without a single new upload: when more than
      100 works are pending. */
  lemma WedgeIffOverfull(c: Config, s: State)
    requires Inv(c, s) && s.hand.Requeueing?
    ensures (exists steps :: NoAdds(steps) && Exec(c, s, steps).Some? && Wedged(Exec(c, s, steps).value))
            <==> Pending(s) > 100
  {
    if Pending(s) > QUEUE_DEPTH {
      var steps := ProducersFillTheQueue(c, s);
    }
    if steps :| NoAdds(steps) && Exec(c, s, steps).Some? && Wedged(Exec(c, s, steps).value) {
      PendingNeverGrows(c, s, steps);
    }
  }

  function Adds(w: Work, n: nat): (r: seq<Step>)
    ensures |r| == n
  {
    if n == 0 then [] else [Add(w)] + Adds(w, n - 1)
  }

  lemma {:induction false} ManyAdds(c: Config, s: State, w: Work, n: nat)
    ensures var r := Exec(c, s, Adds(w, n));
            && r.Some? && r.value.(blocked := s.blocked, added := s.added) == s
            && r.value.blocked[w] == s.blocked[w] + n && |r.value.blocked| == |s.blocked| + n
    decreases n
  {
    if n > 0 {
      assert Adds(w, n)[1..] == Adds(w, n - 1);
      ManyAdds(c, Next(c, s, Add(w)), w, n - 1);
    }
  }

  /** The wedge is reachable from the initial state under every configuration that allows a worker:
      one dongle uploads 102 logs while its first is being parsed. */
  lemma WedgeIsReachable(c: Config, routes: map<Key, Route>, w: Work) returns (steps: seq<Step>)
    requires c.parallelLogParsers >= 1
    ensures Exec(c, Initial(routes), steps).Some? && Wedged(Exec(c, Initial(routes), steps).value)
  {
    var s0 := Initial(routes);
    var s1, a := StartOne(c, s0, w);
    ManyAdds(c, s1, w, 101);
    var s2 := Exec(c, s1, Adds(w, 101)).value;
    ExecConcat(c, s0, a, Adds(w, 101));
    var t, b := Extend(c, s0, a + Adds(w, 101), s2, Enqueue(w));
    t, b := Extend(c, s0, b, t, Receive);
    t, b := Extend(c, s0, b, t, Load);
    var d := ProducersFillTheQueue(c, t);
    ExecConcat(c, s0, b, d);
    steps := b + d;
  }

  /** From an idle dispatcher with an empty queue, one work is added, started and stored. */
  lemma StartOne(c: Config, s: State, w: Work) returns (t: State, steps: seq<Step>)
    requires s == Initial(s.routes) && c.parallelLogParsers >= 1
    ensures Exec(c, s, steps) == Some(t)
    ensures t == s.(workers := [Worker(w, Stored, None)], count := 1, activeJobs := map[w.dongleID := 0],
                    added := multiset{w})
  {
    t, steps := ReceiveOne(c, s, w);
    t, steps := AdmitHand(c, s, steps, t);
    assert t.workers == [Worker(w, Spawned, None)];
    t, steps := Extend(c, s, steps, t, Store(0));
    assert t.workers == [Worker(w, Stored, None)];
  }

  /** Nothing is pending and nothing runs. */
  predicate AtRest(s: State) {
    s.blocked == multiset{} && s.queue == [] && s.hand.Idle? && s.count == 0 && s.activeJobs == map[]
  }

  lemma ReceiveOne(c: Config, s: State, w: Work) returns (t: State, steps: seq<Step>)
    requires AtRest(s)
    ensures Exec(c, s, steps) == Some(t) && t == s.(hand := Received(w), added := s.added + multiset{w})
  {
    t, steps := Extend(c, s, [], s, Add(w));
    t, steps := Extend(c, s, steps, t, Enqueue(w));
    assert t.blocked == multiset{} && t.queue == [w];
    t, steps := Extend(c, s, steps, t, Receive);
  }

  lemma AdmitChecked(c: Config, s: State, steps: seq<Step>, t: State) returns (u: State, more: seq<Step>)
    requires Exec(c, s, steps) == Some(t) && t.hand.Checked? && 0 <= t.count < c.parallelLogParsers
    ensures Exec(c, s, more) == Some(u) && more == steps + [Compare, Inc, Spawn]
    ensures u == t.(hand := Idle, count := t.count + 1, workers := t.workers + [Worker(t.hand.work, Spawned, None)])
  {
    WrapIsIdentityInRange(t.count);
    u, more := Extend(c, s, steps, t, Compare);
    u, more := Extend(c, s, more, u, Inc);
    u, more := Extend(c, s, more, u, Spawn);
  }

  /** A received work of an inactive dongle is spawned when there is a free slot. */
  lemma AdmitHand(c: Config, s: State, steps: seq<Step>, t: State) returns (u: State, more: seq<Step>)
    requires Exec(c, s, steps) == Some(t)
    requires t.hand.Received? && t.hand.work.dongleID !in t.activeJobs && 0 <= t.count < c.parallelLogParsers
    ensures Exec(c, s, more) == Some(u) && more == steps + [Load, Compare, Inc, Spawn]
    ensures u == t.(hand := Idle, count := t.count + 1, workers := t.workers + [Worker(t.hand.work, Spawned, None)])
  {
    u, more := Extend(c, s, steps, t, Load);
    u, more := AdmitChecked(c, s, more, u);
  }

  /** A run extended by one enabled step. */
  lemma Extend(c: Config, s: State, steps: seq<Step>, t: State, e: Step) returns (t': State, steps': seq<Step>)
    requires Exec(c, s, steps) == Some(t) && Enabled(c, t, e)
    ensures t' == Next(c, t, e) && steps' == steps + [e] && Exec(c, s, steps') == Some(t')
  {
    t', steps' := Next(c, t, e), steps + [e];
    ExecConcat(c, s, steps, [e]);
    assert [e][1..] == [];
    assert Exec(c, t, [e]) == Exec(c, t', []);
  }
}
