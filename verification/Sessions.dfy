/** The session life cycle of internal/server/websocket/websocket.go: OnConnect and OnDisconnect of
    any number of websocket handlers, each step one map, gauge or channel operation of the code. */
module Sessions {
  import opened Prelude

  /** One bidiChannel: its flag and whether each of its channels has been closed. */
  datatype Session = Session(dongleID: string, open: bool, inboundClosed: bool, outboundClosed: bool)

  /** Where a handler stands: OnConnect before and after the Store and the gauge increment, then
      OnDisconnect after the decrement, after LoadAndDelete found a session, after open was cleared,
      after the inbound channel was closed, and finished. */
  datatype Phase =
    | Built
    | Stored
    | Connected
    | Leaving
    | Taken(session: nat)
    | Marked(session: nat)
    | HalfClosed(session: nat)
    | Gone

  /** own is the session the handler built. */
  datatype Handler = Handler(dongleID: string, own: nat, phase: Phase)

  datatype State = State(
    sessions: seq<Session>, dongles: map<string, nat>, gauge: map<string, int>, handlers: seq<Handler>)

  const INITIAL: State := State([], map[], map[], [])

  datatype Step =
    | Connect(dongleID: string)     // the bidiChannel and its watcher are built
    | Store(h: nat)                 // c.dongles.Store
    | CountUp(h: nat)               // IncrementAthenaConnections
    | CountDown(h: nat)             // DecrementAthenaConnections
    | Take(h: nat)                  // c.dongles.LoadAndDelete
    | Abort(h: nat)                 // Unsubscribe reports a draining or closed NATS connection
    | Mark(h: nat)                  // open = false
    | CloseInbound(h: nat)
    | CloseOutbound(h: nat)

  function Gauge(s: State, d: string): int { if d in s.gauge then s.gauge[d] else 0 }

  predicate Enabled(s: State, e: Step) {
    e.Connect? ||
    (e.h < |s.handlers| &&
     var p := s.handlers[e.h].phase;
     match e
     case Connect(_) => true
     case Store(_) => p.Built?
     case CountUp(_) => p.Stored?
     case CountDown(_) => p.Connected?
     case Take(_) => p.Leaving?
     case Abort(_) => p.Taken?
     case Mark(_) => p.Taken? && p.session < |s.sessions|
     case CloseInbound(_) => p.Marked? && p.session < |s.sessions|
     case CloseOutbound(_) => p.HalfClosed? && p.session < |s.sessions|)
  }

  function At(s: State, h: nat, p: Phase): State
    requires h < |s.handlers|
  {
    s.(handlers := s.handlers[h := s.handlers[h].(phase := p)])
  }

  function Next(s: State, e: Step): State
    requires Enabled(s, e)
  {
    match e
    case Connect(d) =>
      s.(sessions := s.sessions + [Session(d, true, false, false)],
         handlers := s.handlers + [Handler(d, |s.sessions|, Built)])
    case Store(h) => At(s, h, Stored).(dongles := s.dongles[s.handlers[h].dongleID := s.handlers[h].own])
    case CountUp(h) =>
      var d := s.handlers[h].dongleID;
      At(s, h, Connected).(gauge := s.gauge[d := Gauge(s, d) + 1])
    case CountDown(h) =>
      var d := s.handlers[h].dongleID;
      At(s, h, Leaving).(gauge := s.gauge[d := Gauge(s, d) - 1])
    case Take(h) =>
      var d := s.handlers[h].dongleID;
      if d in s.dongles then At(s, h, Taken(s.dongles[d])).(dongles := s.dongles - {d})
      else At(s, h, Gone)
    case Abort(h) => At(s, h, Gone)
    case Mark(h) =>
      var t := s.handlers[h].phase.session;
      At(s, h, Marked(t)).(sessions := s.sessions[t := s.sessions[t].(open := false)])
    case CloseInbound(h) =>
      var t := s.handlers[h].phase.session;
      At(s, h, HalfClosed(t)).(sessions := s.sessions[t := s.sessions[t].(inboundClosed := true)])
    case CloseOutbound(h) =>
      var t := s.handlers[h].phase.session;
      At(s, h, Gone).(sessions := s.sessions[t := s.sessions[t].(outboundClosed := true)])
  }

  function Exec(s: State, steps: seq<Step>): Option<State>
    decreases |steps|
  {
    if steps == [] then Some(s)
    else if Enabled(s, steps[0]) then Exec(Next(s, steps[0]), steps[1..])
    else None
  }

  // ----- The invariant -----

  predicate Holds(h: Handler) { h.phase.Taken? || h.phase.Marked? || h.phase.HalfClosed? }

  predicate Untouched(x: Session) { x.open && !x.inboundClosed && !x.outboundClosed }

  /** Every registered session is open, its channels unclosed, and it belongs to the dongle. */
  ghost predicate MapOpen(s: State) {
    forall d | d in s.dongles ::
      s.dongles[d] < |s.sessions| && Untouched(s.sessions[s.dongles[d]]) && s.sessions[s.dongles[d]].dongleID == d
  }

  /** A session taken out of the map is held by one handler and closed step by step. */
  ghost predicate HeldExact(s: State) {
    && (forall i: nat | i < |s.handlers| && Holds(s.handlers[i]) ::
          var p := s.handlers[i].phase;
          && p.session < |s.sessions|
          && var x := s.sessions[p.session];
             && !x.outboundClosed && x.inboundClosed == p.HalfClosed? && x.open == p.Taken?)
    && (forall i: nat, d | i < |s.handlers| && Holds(s.handlers[i]) && d in s.dongles ::
          s.dongles[d] != s.handlers[i].phase.session)
    && (forall i, j | 0 <= i < j < |s.handlers| && Holds(s.handlers[i]) && Holds(s.handlers[j]) ::
          s.handlers[i].phase.session != s.handlers[j].phase.session)
  }

  /** A session not yet stored is its builder's alone. */
  ghost predicate BuiltPrivate(s: State) {
    && (forall i: nat | i < |s.handlers| ::
          s.handlers[i].own < |s.sessions| && s.sessions[s.handlers[i].own].dongleID == s.handlers[i].dongleID)
    && (forall i, j | 0 <= i < j < |s.handlers| :: s.handlers[i].own != s.handlers[j].own)
    && (forall i: nat | i < |s.handlers| && s.handlers[i].phase.Built? ::
          && Untouched(s.sessions[s.handlers[i].own])
          && (forall d | d in s.dongles :: s.dongles[d] != s.handlers[i].own)
          && (forall j: nat | j < |s.handlers| && Holds(s.handlers[j]) ::
                s.handlers[j].phase.session != s.handlers[i].own))
  }

  ghost predicate Inv(s: State) { MapOpen(s) && HeldExact(s) && BuiltPrivate(s) }

  lemma ConnectKeepsMapAndHeld(s: State, d: string)
    requires MapOpen(s) && HeldExact(s)
    ensures MapOpen(Next(s, Connect(d))) && HeldExact(Next(s, Connect(d)))
  {
    var t := Next(s, Connect(d));
    assert forall i: nat | i < |s.handlers| :: t.handlers[i] == s.handlers[i];
    assert forall x: nat | x < |s.sessions| :: t.sessions[x] == s.sessions[x];
    assert !Holds(t.handlers[|s.handlers|]);
  }

  lemma ConnectKeepsBuilt(s: State, d: string)
    requires Inv(s)
    ensures BuiltPrivate(Next(s, Connect(d)))
  {
    var t := Next(s, Connect(d));
    assert forall i: nat | i < |s.handlers| :: t.handlers[i] == s.handlers[i];
    assert forall x: nat | x < |s.sessions| :: t.sessions[x] == s.sessions[x];
    assert t.dongles == s.dongles;
  }

  lemma StoreKeepsMapAndHeld(s: State, h: nat)
    requires Inv(s) && Enabled(s, Store(h))
    ensures MapOpen(Next(s, Store(h))) && HeldExact(Next(s, Store(h)))
  {
    var t := Next(s, Store(h));
    assert t.sessions == s.sessions;
    assert forall i: nat | i < |s.handlers| && i != h :: t.handlers[i] == s.handlers[i];
  }

  lemma StoreKeepsBuilt(s: State, h: nat)
    requires BuiltPrivate(s) && Enabled(s, Store(h))
    ensures BuiltPrivate(Next(s, Store(h)))
  {
    var t := Next(s, Store(h));
    assert t.sessions == s.sessions;
    assert forall i: nat | i < |s.handlers| && i != h :: t.handlers[i] == s.handlers[i];
  }

  lemma CountKeepsMapAndHeld(s: State, e: Step)
    requires MapOpen(s) && HeldExact(s) && Enabled(s, e) && (e.CountUp? || e.CountDown?)
    ensures MapOpen(Next(s, e)) && HeldExact(Next(s, e))
  {
    var t := Next(s, e);
    assert t.sessions == s.sessions && t.dongles == s.dongles;
    assert forall i: nat | i < |s.handlers| && i != e.h :: t.handlers[i] == s.handlers[i];
  }

  lemma CountKeepsBuilt(s: State, e: Step)
    requires BuiltPrivate(s) && Enabled(s, e) && (e.CountUp? || e.CountDown?)
    ensures BuiltPrivate(Next(s, e))
  {
    var t := Next(s, e);
    assert t.sessions == s.sessions && t.dongles == s.dongles;
    assert forall i: nat | i < |s.handlers| && i != e.h :: t.handlers[i] == s.handlers[i];
  }

  lemma TakeKeepsMapAndHeld(s: State, h: nat)
    requires MapOpen(s) && HeldExact(s) && Enabled(s, Take(h))
    ensures MapOpen(Next(s, Take(h))) && HeldExact(Next(s, Take(h)))
  {
    var t := Next(s, Take(h));
    assert t.sessions == s.sessions;
    assert forall i: nat | i < |s.handlers| && i != h :: t.handlers[i] == s.handlers[i];
    forall d, d' | d in s.dongles && d' in s.dongles && d != d' ensures s.dongles[d] != s.dongles[d'] {
      assert s.sessions[s.dongles[d]].dongleID == d;
    }
  }

  lemma TakeKeepsBuilt(s: State, h: nat)
    requires BuiltPrivate(s) && Enabled(s, Take(h))
    ensures BuiltPrivate(Next(s, Take(h)))
  {
    var t := Next(s, Take(h));
    assert t.sessions == s.sessions;
    assert forall i: nat | i < |s.handlers| && i != h :: t.handlers[i] == s.handlers[i];
    assert t.handlers[h].own == s.handlers[h].own && t.handlers[h].dongleID == s.handlers[h].dongleID;
  }

  lemma AbortKeepsInvariant(s: State, h: nat)
    requires Inv(s) && Enabled(s, Abort(h))
    ensures Inv(Next(s, Abort(h)))
  {
    var t := Next(s, Abort(h));
    assert t.sessions == s.sessions && t.dongles == s.dongles;
    assert forall i: nat | i < |s.handlers| && i != h :: t.handlers[i] == s.handlers[i];
  }

  predicate IsClose(e: Step) { e.Mark? || e.CloseInbound? || e.CloseOutbound? }

  lemma CloseFrame(s: State, e: Step)
    requires Enabled(s, e) && IsClose(e)
    ensures var t, x := Next(s, e), s.handlers[e.h].phase.session;
            && Holds(s.handlers[e.h]) && t.dongles == s.dongles
            && |t.sessions| == |s.sessions| && |t.handlers| == |s.handlers|
            && (forall i: nat | i < |s.handlers| && i != e.h :: t.handlers[i] == s.handlers[i])
            && (forall y: nat | y < |s.sessions| && y != x :: t.sessions[y] == s.sessions[y])
            && t.sessions[x].dongleID == s.sessions[x].dongleID
            && t.handlers[e.h].own == s.handlers[e.h].own && t.handlers[e.h].dongleID == s.handlers[e.h].dongleID
            && !t.handlers[e.h].phase.Built?
  {
  }

  lemma CloseKeepsMapAndHeld(s: State, e: Step)
    requires Inv(s) && Enabled(s, e) && IsClose(e)
    ensures MapOpen(Next(s, e)) && HeldExact(Next(s, e))
  {
    CloseFrame(s, e);
    assert forall d | d in s.dongles :: s.dongles[d] != s.handlers[e.h].phase.session;
  }

  lemma CloseKeepsBuilt(s: State, e: Step)
    requires BuiltPrivate(s) && Enabled(s, e) && IsClose(e)
    ensures BuiltPrivate(Next(s, e))
  {
    var t, x := Next(s, e), s.handlers[e.h].phase.session;
    CloseFrame(s, e);
    forall i: nat | i < |t.handlers| && t.handlers[i].phase.Built?
      ensures t.handlers[i] == s.handlers[i] && t.handlers[i].own != x
    {
    }
  }

  lemma StepKeepsInvariant(s: State, e: Step)
    requires Inv(s) && Enabled(s, e)
    ensures Inv(Next(s, e))
  {
    match e
    case Connect(d) => ConnectKeepsMapAndHeld(s, d); ConnectKeepsBuilt(s, d);
    case Store(h) => StoreKeepsMapAndHeld(s, h); StoreKeepsBuilt(s, h);
    case CountUp(_) => CountKeepsMapAndHeld(s, e); CountKeepsBuilt(s, e);
    case CountDown(_) => CountKeepsMapAndHeld(s, e); CountKeepsBuilt(s, e);
    case Take(h) => TakeKeepsMapAndHeld(s, h); TakeKeepsBuilt(s, h);
    case Abort(h) => AbortKeepsInvariant(s, h);
    case _ => CloseKeepsMapAndHeld(s, e); CloseKeepsBuilt(s, e);
  }

  lemma {:induction false} RunKeepsInvariant(s: State, steps: seq<Step>)
    requires Inv(s) && Exec(s, steps).Some?
    ensures Inv(Exec(s, steps).value)
    decreases |steps|
  {
    if steps != [] {
      StepKeepsInvariant(s, steps[0]);
      RunKeepsInvariant(Next(s, steps[0]), steps[1..]);
    }
  }

  /** In every state of every interleaving of connects and disconnects, every map entry is open with
      unclosed channels; and whatever close comes next, the channel it closes is still open. */
  lemma SessionLifeCycle(steps: seq<Step>, e: Step)
    requires Exec(INITIAL, steps).Some?
    ensures var s := Exec(INITIAL, steps).value;
            && MapOpen(s)
            && (Enabled(s, e) && e.CloseInbound? ==> !s.sessions[s.handlers[e.h].phase.session].inboundClosed)
            && (Enabled(s, e) && e.CloseOutbound? ==> !s.sessions[s.handlers[e.h].phase.session].outboundClosed)
  {
    RunKeepsInvariant(INITIAL, steps);
  }

  // ----- The gauge -----

  predicate CountedUp(h: Handler) { !h.phase.Built? && !h.phase.Stored? }
  predicate CountedDown(h: Handler) { CountedUp(h) && !h.phase.Connected? }

  ghost function Connects(s: State, d: string): set<nat> {
    set i: nat | i < |s.handlers| && s.handlers[i].dongleID == d && CountedUp(s.handlers[i])
  }

  ghost function Disconnects(s: State, d: string): set<nat> {
    set i: nat | i < |s.handlers| && s.handlers[i].dongleID == d && CountedDown(s.handlers[i])
  }

  ghost predicate GaugeExact(s: State, d: string) {
    Gauge(s, d) == |Connects(s, d)| - |Disconnects(s, d)|
  }

  lemma CountUpKeepsGauge(s: State, h: nat, d: string)
    requires GaugeExact(s, d) && Enabled(s, CountUp(h))
    ensures GaugeExact(Next(s, CountUp(h)), d)
  {
    var t := Next(s, CountUp(h));
    assert Disconnects(t, d) == Disconnects(s, d);
    if s.handlers[h].dongleID == d {
      assert Connects(t, d) == Connects(s, d) + {h};
    } else {
      assert Connects(t, d) == Connects(s, d);
    }
  }

  lemma CountDownKeepsGauge(s: State, h: nat, d: string)
    requires GaugeExact(s, d) && Enabled(s, CountDown(h))
    ensures GaugeExact(Next(s, CountDown(h)), d)
  {
    var t := Next(s, CountDown(h));
    assert Connects(t, d) == Connects(s, d);
    if s.handlers[h].dongleID == d {
      assert Disconnects(t, d) == Disconnects(s, d) + {h};
    } else {
      assert Disconnects(t, d) == Disconnects(s, d);
    }
  }

  lemma OtherStepKeepsGauge(s: State, e: Step, d: string)
    requires GaugeExact(s, d) && Enabled(s, e) && !e.CountUp? && !e.CountDown?
    ensures GaugeExact(Next(s, e), d)
  {
    var t := Next(s, e);
    assert t.gauge == s.gauge;
    if e.Connect? {
      assert forall i: nat | i < |s.handlers| :: t.handlers[i] == s.handlers[i];
    } else {
      assert forall i: nat | i < |s.handlers| :: (
               && t.handlers[i].dongleID == s.handlers[i].dongleID
               && CountedUp(t.handlers[i]) == CountedUp(s.handlers[i])
               && CountedDown(t.handlers[i]) == CountedDown(s.handlers[i]));
    }
    assert Connects(t, d) == Connects(s, d);
    assert Disconnects(t, d) == Disconnects(s, d);
  }

  lemma StepKeepsGauge(s: State, e: Step, d: string)
    requires GaugeExact(s, d) && Enabled(s, e)
    ensures GaugeExact(Next(s, e), d)
  {
    match e
    case CountUp(h) => CountUpKeepsGauge(s, h, d);
    case CountDown(h) => CountDownKeepsGauge(s, h, d);
    case _ => OtherStepKeepsGauge(s, e, d);
  }

  lemma {:induction false} RunKeepsGauge(s: State, steps: seq<Step>, d: string)
    requires GaugeExact(s, d) && Exec(s, steps).Some?
    ensures GaugeExact(Exec(s, steps).value, d)
    decreases |steps|
  {
    if steps != [] {
      StepKeepsGauge(s, steps[0], d);
      RunKeepsGauge(Next(s, steps[0]), steps[1..], d);
    }
  }

  /** In every interleaving the connection gauge of a dongle is its connects minus its disconnects,
      the number of handlers between the two, and so never negative. */
  lemma GaugeCountsConnections(steps: seq<Step>, d: string)
    requires Exec(INITIAL, steps).Some?
    ensures var s := Exec(INITIAL, steps).value;
            && Gauge(s, d) == |Connects(s, d)| - |Disconnects(s, d)|
            && Gauge(s, d) ==
               |set i: nat | i < |s.handlers| && s.handlers[i].dongleID == d && s.handlers[i].phase.Connected?|
  {
    assert Connects(INITIAL, d) == {} && Disconnects(INITIAL, d) == {};
    RunKeepsGauge(INITIAL, steps, d);
    var s := Exec(INITIAL, steps).value;
    var live := set i: nat | i < |s.handlers| && s.handlers[i].dongleID == d && s.handlers[i].phase.Connected?;
    assert Connects(s, d) == live + Disconnects(s, d);
  }

  // ----- Overlapping sessions of one dongle -----

  /** The handler's OnDisconnect has done its LoadAndDelete: it will not touch the map any more. */
  predicate PastTake(h: Handler) { Holds(h) || h.phase.Gone? }

  ghost predicate AllPastTake(s: State, d: string) {
    forall i: nat | i < |s.handlers| && s.handlers[i].dongleID == d :: PastTake(s.handlers[i])
  }

  /** A dongle connects only when all its earlier handlers are past their LoadAndDelete. */
  ghost predicate NoOverlapStep(s: State, e: Step) { e.Connect? ==> AllPastTake(s, e.dongleID) }

  ghost predicate NoOverlapRun(s: State, steps: seq<Step>)
    decreases |steps|
  {
    steps == [] || (NoOverlapStep(s, steps[0]) && Enabled(s, steps[0]) && NoOverlapRun(Next(s, steps[0]), steps[1..]))
  }

  ghost predicate Apart(s: State) {
    forall i, j | 0 <= i < j < |s.handlers| && !PastTake(s.handlers[i]) && !PastTake(s.handlers[j]) ::
      s.handlers[i].dongleID != s.handlers[j].dongleID
  }

  predicate IsStored(h: Handler) { h.phase.Stored? || h.phase.Connected? || h.phase.Leaving? }

  ghost predicate StoredRegistered(s: State) {
    forall i: nat | i < |s.handlers| && IsStored(s.handlers[i]) ::
      s.handlers[i].dongleID in s.dongles && s.dongles[s.handlers[i].dongleID] == s.handlers[i].own
  }

  ghost predicate OneAtATime(s: State) { Apart(s) && StoredRegistered(s) }

  lemma StepKeepsApart(s: State, e: Step)
    requires Apart(s) && Enabled(s, e) && NoOverlapStep(s, e)
    ensures Apart(Next(s, e))
  {
    var t := Next(s, e);
    if e.Connect? {
      assert forall i: nat | i < |s.handlers| :: t.handlers[i] == s.handlers[i];
    } else {
      assert forall i: nat | i < |s.handlers| && i != e.h :: t.handlers[i] == s.handlers[i];
      assert t.handlers[e.h].dongleID == s.handlers[e.h].dongleID;
    }
  }

  lemma StepKeepsOneAtATime(s: State, e: Step)
    requires OneAtATime(s) && Enabled(s, e) && NoOverlapStep(s, e)
    ensures OneAtATime(Next(s, e))
  {
    var t := Next(s, e);
    StepKeepsApart(s, e);
    if e.Connect? {
      assert t.dongles == s.dongles && forall i: nat | i < |s.handlers| :: t.handlers[i] == s.handlers[i];
    } else {
      assert forall i: nat | i < |s.handlers| && i != e.h :: t.handlers[i] == s.handlers[i];
      assert PastTake(s.handlers[e.h]) ==> t.dongles == s.dongles;
    }
  }

  lemma {:induction false} RunKeepsOneAtATime(s: State, steps: seq<Step>)
    requires OneAtATime(s) && NoOverlapRun(s, steps)
    ensures Exec(s, steps).Some? && OneAtATime(Exec(s, steps).value)
    decreases |steps|
  {
    if steps != [] {
      StepKeepsOneAtATime(s, steps[0]);
      RunKeepsOneAtATime(Next(s, steps[0]), steps[1..]);
    }
  }

  /** Every connected handler's dongle is registered with that handler's own session, so that calls reach
      it and its disconnect closes it. */
  ghost predicate AllRegistered(s: State) {
    forall i: nat | i < |s.handlers| && s.handlers[i].phase.Connected? ::
      s.handlers[i].dongleID in s.dongles && s.dongles[s.handlers[i].dongleID] == s.handlers[i].own
  }

  /** That holds in every state of every run in which dongles do not overlap with themselves. */
  lemma ConnectedIsRegistered(steps: seq<Step>)
    requires NoOverlapRun(INITIAL, steps)
    ensures Exec(INITIAL, steps).Some? && AllRegistered(Exec(INITIAL, steps).value)
  {
    RunKeepsOneAtATime(INITIAL, steps);
  }

  /** A run extended by one enabled step. */
  lemma ExtendRun(s: State, steps: seq<Step>, t: State, e: Step) returns (t': State, steps': seq<Step>)
    requires Exec(s, steps) == Some(t) && Enabled(t, e)
    ensures t' == Next(t, e) && steps' == steps + [e] && Exec(s, steps') == Some(t')
  {
    t', steps' := Next(t, e), steps + [e];
    ExecSnoc(s, steps, e);
  }

  lemma {:induction false} ExecSnoc(s: State, steps: seq<Step>, e: Step)
    requires Exec(s, steps).Some? && Enabled(Exec(s, steps).value, e)
    ensures Exec(s, steps + [e]) == Some(Next(Exec(s, steps).value, e))
    decreases |steps|
  {
    if steps == [] {
      assert [e][1..] == [];
    } else {
      assert (steps + [e])[1..] == steps[1..] + [e];
      ExecSnoc(Next(s, steps[0]), steps[1..], e);
    }
  }

  predicate NoConnects(steps: seq<Step>) { forall i | 0 <= i < |steps| :: !steps[i].Connect? }

  /** After its dongle has connected again, an old handler that is not past its LoadAndDelete can go on to
      leave the new, connected handler without its registration: one that is still to store itself
      replaces the new session, any other one takes it away. */
  lemma OldHandlerUnregistersNew(s: State, steps: seq<Step>, t: State, i: nat, j: nat)
    returns (u: State, more: seq<Step>)
    requires Exec(s, steps) == Some(t) && NoConnects(steps)
    requires i < |t.handlers| && j < |t.handlers| && i != j && t.handlers[i].own != t.handlers[j].own
    requires !PastTake(t.handlers[i]) && t.handlers[j].phase.Connected?
    requires t.handlers[i].dongleID == t.handlers[j].dongleID
    ensures Exec(s, more) == Some(u) && NoConnects(more) && !AllRegistered(u)
    decreases if t.handlers[i].phase.Stored? then 2 else if t.handlers[i].phase.Connected? then 1 else 0
  {
    var e := match t.handlers[i].phase
             case Built => Store(i)
             case Stored => CountUp(i)
             case Connected => CountDown(i)
             case _ => Take(i);
    u, more := ExtendRun(s, steps, t, e);
    assert u.handlers[j] == t.handlers[j];
    if e.CountUp? || e.CountDown? {
      u, more := OldHandlerUnregistersNew(s, more, u, i, j);
    }
  }

  /** With overlap the registration can always be lost: when a dongle connects again before one of its
      handlers is past its LoadAndDelete, whatever that handler is at. */
  lemma OverlapOrphansNewSession(s: State, i: nat) returns (t: State, steps: seq<Step>)
    requires BuiltPrivate(s) && i < |s.handlers| && !PastTake(s.handlers[i])
    ensures Exec(Next(s, Connect(s.handlers[i].dongleID)), steps) == Some(t)
    ensures NoConnects(steps) && !AllRegistered(t)
  {
    var d, j := s.handlers[i].dongleID, |s.handlers|;
    var s1 := Next(s, Connect(d));
    t, steps := ExtendRun(s1, [], s1, Store(j));
    t, steps := ExtendRun(s1, steps, t, CountUp(j));
    assert t.handlers[i] == s.handlers[i] && t.handlers[j] == Handler(d, |s.sessions|, Connected);
    t, steps := OldHandlerUnregistersNew(s1, steps, t, i, j);
  }

  lemma {:induction false} NoConnectsNoOverlap(s: State, steps: seq<Step>)
    requires NoConnects(steps) && Exec(s, steps).Some?
    ensures NoOverlapRun(s, steps)
    decreases |steps|
  {
    if steps != [] {
      assert !steps[0].Connect?;
      NoConnectsNoOverlap(Next(s, steps[0]), steps[1..]);
    }
  }

  /** Exactly when a dongle may connect: every run from there without further overlap keeps all connected
      handlers registered if and only if all the dongle's earlier handlers are past their LoadAndDelete. */
  lemma ReconnectIsSafeIff(s: State, d: string)
    requires Inv(s) && OneAtATime(s)
    ensures (forall steps :: NoOverlapRun(Next(s, Connect(d)), steps) ==>
                               && Exec(Next(s, Connect(d)), steps).Some?
                               && AllRegistered(Exec(Next(s, Connect(d)), steps).value))
            <==> AllPastTake(s, d)
  {
    var s1 := Next(s, Connect(d));
    if AllPastTake(s, d) {
      StepKeepsOneAtATime(s, Connect(d));
      forall steps | NoOverlapRun(s1, steps)
        ensures Exec(s1, steps).Some? && AllRegistered(Exec(s1, steps).value)
      {
        RunKeepsOneAtATime(s1, steps);
      }
    } else {
      var i: nat :| i < |s.handlers| && s.handlers[i].dongleID == d && !PastTake(s.handlers[i]);
      var t, steps := OverlapOrphansNewSession(s, i);
      NoConnectsNoOverlap(s1, steps);
    }
  }
}
