/** How RPC calls meet their replies: RPCWebsocket.Call, the NATS handler of OnConnect, the forwarder,
    OnMessage and the channel watcher of each session, as one transition system over any number of
    sessions and calls. The device may send any replies whatever. */
module Correlator {
  import opened Prelude
  import opened ApiModels
  import Sessions

  /** A call made on this server, or one that arrived over NATS for a given session. */
  datatype Origin = Local(dongleID: string) | Nats

  /** Where an invocation stands. s is the session it loaded; the responseChan of an abandoned call has
      been closed by the deferred close, its subscriber is left behind. */
  datatype Phase =
    | New
    | Loaded(s: nat)
    | Checked(s: nat)        // local: open was seen true, not yet subscribed
    | Subscribed(s: nat)     // NATS: subscribed, open not yet looked at
    | Ready(s: nat)          // subscribed, about to send on inbound
    | Forwarded(s: nat)      // the forwarder took the call; waiting in the select
    | Returned(s: nat, response: Response)
    | Abandoned(s: nat)      // timed out, or NAK'd after subscribing
    | Rejected

  datatype Call = Call(id: string, origin: Origin, phase: Phase)

  /** The watcher goroutine: receiving, holding a response, or calling a subscriber. */
  datatype Watch = Idle | Holding(response: Response) | Delivering(response: Response, call: nat)

  datatype Link = Link(subscribers: map<string, nat>, watch: Watch)

  /** What an OnMessage invocation has to send to the session it loaded: First is the send of forwardLogs
      that does not look at open and is followed by one that does, Last any send that looks at it. */
  datatype Turn = First | Last

  datatype Message = Message(s: nat, response: Response, turn: Turn)

  /** loaded: OnMessage invocations past their lookup of the dongle; pending: those blocked on a session's
      outbound channel. delivered and forwarded are histories of the completed sends to callers and to
      devices. */
  datatype State = State(
    reg: Sessions.State, links: seq<Link>, calls: seq<Call>,
    loaded: multiset<Message>, pending: multiset<Message>,
    delivered: seq<(nat, Response)>, forwarded: seq<(nat, nat)>)

  const INITIAL: State := State(Sessions.INITIAL, [], [], multiset{}, multiset{}, [], [])

  datatype Step =
    | Registry(step: Sessions.Step)
    | Begin(id: string, dongleID: string)      // Call is entered
    | BeginNats(id: string, h: nat)            // the NATS callback that handler h installed is entered
    | Load(c: nat)                             // c.dongles.Load
    | CheckOpen(c: nat)
    | Subscribe(c: nat)
    | Send(c: nat)                             // inbound <- call, taken by the forwarder
    | GiveUp(c: nat)                           // the context expires
    | OnMessage(h: nat, response: Response, turn: Turn)   // handler h reads a message, c.dongles.Load
    | Offer(message: Message)                  // it looks at open, if it does, and starts its send on outbound
    | Receive(message: Message)                // the watcher takes it
    | LookUp(s: nat)                           // subscribers.LoadAndDelete
    | Deliver(s: nat)                          // responseChan <- response, taken by the caller's select

  predicate Enabled(st: State, e: Step) {
    match e
    case Registry(r) => Sessions.Enabled(st.reg, r)
    case Begin(_, _) => true
    case BeginNats(_, h) =>
      h < |st.reg.handlers| && Sessions.CountedUp(st.reg.handlers[h]) && st.reg.handlers[h].own < |st.links|
    case Load(c) => c < |st.calls| && st.calls[c].phase.New? && st.calls[c].origin.Local?
    case CheckOpen(c) =>
      && c < |st.calls|
      && var p := st.calls[c].phase;
         && ((p.Loaded? && st.calls[c].origin.Local?) || p.Subscribed?) && p.s < |st.reg.sessions|
    case Subscribe(c) =>
      && c < |st.calls|
      && var p := st.calls[c].phase;
         && (p.Checked? || (p.Loaded? && st.calls[c].origin.Nats?)) && p.s < |st.links|
    case Send(c) =>
      && c < |st.calls| && st.calls[c].phase.Ready? && st.calls[c].phase.s < |st.reg.sessions|
      && !st.reg.sessions[st.calls[c].phase.s].inboundClosed
    case GiveUp(c) => c < |st.calls| && st.calls[c].phase.Forwarded?
    case OnMessage(h, _, _) =>
      && h < |st.reg.handlers| && st.reg.handlers[h].phase.Connected?
      && st.reg.handlers[h].dongleID in st.reg.dongles
    case Offer(m) => m in st.loaded && m.s < |st.reg.sessions|
    case Receive(m) =>
      && m.s < |st.links| && m.s < |st.reg.sessions| && st.links[m.s].watch.Idle? && m in st.pending
      && !st.reg.sessions[m.s].outboundClosed
    case LookUp(s) => s < |st.links| && st.links[s].watch.Holding?
    case Deliver(s) =>
      && s < |st.links| && st.links[s].watch.Delivering? && st.links[s].watch.call < |st.calls|
      && st.calls[st.links[s].watch.call].phase.Forwarded?
  }

  /** Whether a loaded message gets as far as its send. */
  predicate Sends(st: State, m: Message)
    requires m.s < |st.reg.sessions|
  {
    m.turn.First? || st.reg.sessions[m.s].open
  }

  function CallAt(st: State, c: nat, p: Phase): State
    requires c < |st.calls|
  {
    st.(calls := st.calls[c := st.calls[c].(phase := p)])
  }

  function LinkAt(st: State, s: nat, l: Link): State
    requires s < |st.links|
  {
    st.(links := st.links[s := l])
  }

  function Next(st: State, e: Step): State
    requires Enabled(st, e)
  {
    match e
    case Registry(r) =>
      st.(reg := Sessions.Next(st.reg, r), links := st.links + if r.Connect? then [Link(map[], Idle)] else [])
    case Begin(id, d) => st.(calls := st.calls + [Call(id, Local(d), New)])
    case BeginNats(id, h) => st.(calls := st.calls + [Call(id, Nats, Loaded(st.reg.handlers[h].own))])
    case Load(c) =>
      var d := st.calls[c].origin.dongleID;
      CallAt(st, c, if d in st.reg.dongles then Loaded(st.reg.dongles[d]) else Rejected)
    case CheckOpen(c) =>
      var p := st.calls[c].phase;
      var open := st.reg.sessions[p.s].open;
      CallAt(st, c, if p.Loaded? then (if open then Checked(p.s) else Rejected)
                    else if open then Ready(p.s) else Abandoned(p.s))
    case Subscribe(c) =>
      var p, l := st.calls[c].phase, st.links[st.calls[c].phase.s];
      LinkAt(CallAt(st, c, if p.Checked? then Ready(p.s) else Subscribed(p.s)), p.s,
             l.(subscribers := l.subscribers[st.calls[c].id := c]))
    case Send(c) =>
      var s := st.calls[c].phase.s;
      CallAt(st, c, Forwarded(s)).(forwarded := st.forwarded + [(s, c)])
    case GiveUp(c) => CallAt(st, c, Abandoned(st.calls[c].phase.s))
    case OnMessage(h, r, turn) =>
      st.(loaded := st.loaded + multiset{Message(st.reg.dongles[st.reg.handlers[h].dongleID], r, turn)})
    case Offer(m) =>
      st.(loaded := st.loaded - multiset{m},
          pending := st.pending + if Sends(st, m) then multiset{m} else multiset{})
    case Receive(m) =>
      LinkAt(st, m.s, st.links[m.s].(watch := Holding(m.response)))
        .(pending := st.pending - multiset{m},
          loaded := st.loaded + if m.turn.First? then multiset{m.(turn := Last)} else multiset{})
    case LookUp(s) =>
      var l := st.links[s];
      var r := l.watch.response;
      LinkAt(st, s, if r.id in l.subscribers
                    then Link(l.subscribers - {r.id}, Delivering(r, l.subscribers[r.id]))
                    else l.(watch := Idle))
    case Deliver(s) =>
      var w := st.links[s].watch;
      LinkAt(CallAt(st, w.call, Returned(st.calls[w.call].phase.s, w.response)), s, st.links[s].(watch := Idle))
        .(delivered := st.delivered + [(w.call, w.response)])
  }

  function Exec(st: State, steps: seq<Step>): Option<State>
    decreases |steps|
  {
    if steps == [] then Some(st)
    else if Enabled(st, steps[0]) then Exec(Next(st, steps[0]), steps[1..])
    else None
  }

  // ----- Correlation, under every interleaving and for any call ids -----

  /** A call that has subscribed with session s and has not been answered. */
  predicate SubscribedWith(k: Call, s: nat) {
    (k.phase.Subscribed? || k.phase.Ready? || k.phase.Forwarded? || k.phase.Abandoned?) && k.phase.s == s
  }

  /** Every table entry points to a call of that id which subscribed with that session. */
  ghost predicate TablesRight(st: State) {
    forall s: nat, id | s < |st.links| && id in st.links[s].subscribers ::
      var c := st.links[s].subscribers[id];
      c < |st.calls| && st.calls[c].id == id && SubscribedWith(st.calls[c], s)
  }

  /** A watcher only ever calls the subscriber of the id it holds, and that one is no longer in the table. */
  ghost predicate WatchersRight(st: State) {
    forall s: nat | s < |st.links| && st.links[s].watch.Delivering? ::
      var w := st.links[s].watch;
      && w.call < |st.calls| && st.calls[w.call].id == w.response.id && SubscribedWith(st.calls[w.call], s)
      && (forall id | id in st.links[s].subscribers :: st.links[s].subscribers[id] != w.call)
  }

  predicate WasAnswered(k: Call, r: Response) { k.phase.Returned? && k.phase.response == r && k.id == r.id }

  ghost predicate DeliveredRight(st: State) {
    forall k | 0 <= k < |st.delivered| ::
      st.delivered[k].0 < |st.calls| && WasAnswered(st.calls[st.delivered[k].0], st.delivered[k].1)
  }

  ghost predicate DeliveredListed(st: State) {
    forall c: nat | c < |st.calls| && st.calls[c].phase.Returned? ::
      exists k :: 0 <= k < |st.delivered| && st.delivered[k].0 == c
  }

  /** delivered lists exactly the returned calls, once each, with a response of their id. */
  ghost predicate DeliveredExact(st: State) {
    && DeliveredRight(st) && DeliveredListed(st)
    && forall k, l | 0 <= k < l < |st.delivered| :: st.delivered[k].0 != st.delivered[l].0
  }

  predicate WasForwarded(k: Call, s: nat) {
    (k.phase.Forwarded? || k.phase.Returned? || k.phase.Abandoned?) && k.phase.s == s
  }

  /** A call is written to a device at most once, by the session it subscribed with. */
  ghost predicate ForwardedOnce(st: State) {
    && (forall k | 0 <= k < |st.forwarded| ::
          st.forwarded[k].1 < |st.calls| && WasForwarded(st.calls[st.forwarded[k].1], st.forwarded[k].0))
    && (forall k, l | 0 <= k < l < |st.forwarded| :: st.forwarded[k].1 != st.forwarded[l].1)
  }

  ghost predicate Inv(st: State) {
    TablesRight(st) && WatchersRight(st) && DeliveredExact(st) && ForwardedOnce(st)
  }

  /** The invocation a step moves, if it moves one. */
  function Moved(st: State, e: Step): Option<nat>
    requires Enabled(st, e)
  {
    match e
    case Load(c) => Some(c)
    case CheckOpen(c) => Some(c)
    case Subscribe(c) => Some(c)
    case Send(c) => Some(c)
    case GiveUp(c) => Some(c)
    case Deliver(s) => Some(st.links[s].watch.call)
    case _ => None
  }

  lemma CallsFrame(st: State, e: Step)
    requires Enabled(st, e)
    ensures var t := Next(st, e);
            && |t.calls| >= |st.calls|
            && (forall c: nat | c < |st.calls| ::
                  t.calls[c].id == st.calls[c].id && t.calls[c].origin == st.calls[c].origin
                  && (Moved(st, e) != Some(c) ==> t.calls[c] == st.calls[c]))
            && (forall c: nat | |st.calls| <= c < |t.calls| :: t.calls[c].phase.New? || t.calls[c].phase.Loaded?)
  {
    var t := Next(st, e);
    if Moved(st, e).Some? {
      var x := Moved(st, e).value;
      assert t.calls == st.calls[x := st.calls[x].(phase := t.calls[x].phase)];
    } else {
      assert e.Begin? || e.BeginNats? || t.calls == st.calls;
      assert t.calls[..|st.calls|] == st.calls;
    }
  }

  lemma CallStepKeepsTables(st: State, e: Step)
    requires Inv(st) && Enabled(st, e) && (e.Load? || e.CheckOpen? || e.Send? || e.GiveUp? || e.Begin? || e.BeginNats?)
    ensures TablesRight(Next(st, e)) && WatchersRight(Next(st, e))
  {
    CallsFrame(st, e);
    assert Next(st, e).links == st.links;
  }

  lemma OtherStepKeepsTables(st: State, e: Step)
    requires Inv(st) && Enabled(st, e) && (e.Registry? || e.OnMessage? || e.Offer? || e.Receive?)
    ensures TablesRight(Next(st, e)) && WatchersRight(Next(st, e))
  {
    var t := Next(st, e);
    assert t.calls == st.calls;
    assert forall s: nat | s < |st.links| ::
        && t.links[s].subscribers == st.links[s].subscribers
        && (t.links[s].watch.Delivering? ==> t.links[s] == st.links[s]);
  }

  lemma SubscribeKeepsTables(st: State, c: nat)
    requires Inv(st) && Enabled(st, Subscribe(c))
    ensures TablesRight(Next(st, Subscribe(c))) && WatchersRight(Next(st, Subscribe(c)))
  {
    CallsFrame(st, Subscribe(c));
    var t, s := Next(st, Subscribe(c)), st.calls[c].phase.s;
    assert forall x: nat | x < |st.links| && x != s :: t.links[x] == st.links[x];
    assert t.links[s].watch == st.links[s].watch;
  }

  lemma LookUpKeepsTables(st: State, s: nat)
    requires Inv(st) && Enabled(st, LookUp(s))
    ensures TablesRight(Next(st, LookUp(s))) && WatchersRight(Next(st, LookUp(s)))
  {
    var t := Next(st, LookUp(s));
    assert t.calls == st.calls;
    assert forall x: nat | x < |st.links| && x != s :: t.links[x] == st.links[x];
  }

  lemma DeliverKeepsTables(st: State, s: nat)
    requires Inv(st) && Enabled(st, Deliver(s))
    ensures TablesRight(Next(st, Deliver(s))) && WatchersRight(Next(st, Deliver(s)))
  {
    CallsFrame(st, Deliver(s));
    var t, c := Next(st, Deliver(s)), st.links[s].watch.call;
    assert forall x: nat | x < |st.links| && x != s :: t.links[x] == st.links[x];
    assert t.links[s] == st.links[s].(watch := Idle);
    forall x: nat, id | x < |st.links| && id in st.links[x].subscribers ensures st.links[x].subscribers[id] != c {
      assert x != s ==> !SubscribedWith(st.calls[c], x);
    }
  }

  lemma StepKeepsTables(st: State, e: Step)
    requires Inv(st) && Enabled(st, e)
    ensures TablesRight(Next(st, e)) && WatchersRight(Next(st, e))
  {
    match e
    case Subscribe(c) => SubscribeKeepsTables(st, c);
    case LookUp(s) => LookUpKeepsTables(st, s);
    case Deliver(s) => DeliverKeepsTables(st, s);
    case Registry(_) => OtherStepKeepsTables(st, e);
    case OnMessage(_, _, _) => OtherStepKeepsTables(st, e);
    case Offer(_) => OtherStepKeepsTables(st, e);
    case Receive(_) => OtherStepKeepsTables(st, e);
    case _ => CallStepKeepsTables(st, e);
  }

  lemma DeliverFrame(st: State, s: nat)
    requires Enabled(st, Deliver(s))
    ensures var t, w := Next(st, Deliver(s)), st.links[s].watch;
            && t.delivered == st.delivered + [(w.call, w.response)] && |t.calls| == |st.calls|
            && !st.calls[w.call].phase.Returned?
            && t.calls[w.call].phase == Returned(st.calls[w.call].phase.s, w.response)
            && t.calls[w.call].id == st.calls[w.call].id
            && forall x: nat | x < |st.calls| && x != w.call :: t.calls[x] == st.calls[x]
  {
  }

  lemma DeliverKeepsListed(st: State, s: nat)
    requires DeliveredListed(st) && Enabled(st, Deliver(s))
    ensures DeliveredListed(Next(st, Deliver(s)))
  {
    DeliverFrame(st, s);
    var t, c := Next(st, Deliver(s)), st.links[s].watch.call;
    assert t.delivered[|st.delivered|].0 == c;
    forall x: nat | x < |t.calls| && t.calls[x].phase.Returned?
      ensures exists k :: 0 <= k < |t.delivered| && t.delivered[k].0 == x
    {
      if x != c {
        var k :| 0 <= k < |st.delivered| && st.delivered[k].0 == x;
        assert t.delivered[k].0 == x;
      }
    }
  }

  lemma DeliverKeepsDelivered(st: State, s: nat)
    requires DeliveredExact(st) && WatchersRight(st) && Enabled(st, Deliver(s))
    ensures DeliveredExact(Next(st, Deliver(s)))
  {
    DeliverFrame(st, s);
    DeliverKeepsListed(st, s);
  }

  lemma OtherStepKeepsDelivered(st: State, e: Step)
    requires DeliveredExact(st) && Enabled(st, e) && !e.Deliver?
    ensures DeliveredExact(Next(st, e))
  {
    ReturnedStay(st, e);
    assert Next(st, e).delivered == st.delivered;
  }

  /** Apart from a delivery no step changes which calls have returned, or a call that has. */
  lemma ReturnedStay(st: State, e: Step)
    requires Enabled(st, e) && !e.Deliver?
    ensures var t := Next(st, e);
            && |t.calls| >= |st.calls|
            && (forall c: nat | c < |st.calls| && st.calls[c].phase.Returned? :: t.calls[c] == st.calls[c])
            && forall c: nat | c < |t.calls| && t.calls[c].phase.Returned? ::
                 c < |st.calls| && st.calls[c].phase.Returned?
  {
    CallsFrame(st, e);
  }

  lemma CallStaysForwarded(st: State, e: Step, c: nat, s: nat)
    requires Enabled(st, e) && c < |st.calls| && WasForwarded(st.calls[c], s)
    ensures c < |Next(st, e).calls| && WasForwarded(Next(st, e).calls[c], s)
  {
    CallsFrame(st, e);
  }

  lemma StepKeepsForwarded(st: State, e: Step)
    requires ForwardedOnce(st) && Enabled(st, e)
    ensures ForwardedOnce(Next(st, e))
  {
    var t, n := Next(st, e), |st.forwarded|;
    assert !e.Send? ==> t.forwarded == st.forwarded;
    assert e.Send? ==> t.forwarded == st.forwarded + [(st.calls[e.c].phase.s, e.c)];
    forall k | 0 <= k < |t.forwarded|
      ensures t.forwarded[k].1 < |t.calls| && WasForwarded(t.calls[t.forwarded[k].1], t.forwarded[k].0)
    {
      if k < n { CallStaysForwarded(st, e, st.forwarded[k].1, st.forwarded[k].0); }
    }
  }

  lemma StepKeepsHistory(st: State, e: Step)
    requires Inv(st) && Enabled(st, e)
    ensures DeliveredExact(Next(st, e)) && ForwardedOnce(Next(st, e))
  {
    StepKeepsForwarded(st, e);
    if e.Deliver? {
      DeliverKeepsDelivered(st, e.s);
    } else {
      OtherStepKeepsDelivered(st, e);
    }
  }

  lemma {:induction false} RunKeepsInvariant(st: State, steps: seq<Step>)
    requires Inv(st) && Exec(st, steps).Some?
    ensures Inv(Exec(st, steps).value)
    decreases |steps|
  {
    if steps != [] {
      StepKeepsTables(st, steps[0]);
      StepKeepsHistory(st, steps[0]);
      RunKeepsInvariant(Next(st, steps[0]), steps[1..]);
    }
  }

  /** RPC correlation, in every state of every interleaving, whatever the device sends and whatever ids
      the calls have: a returned response carries the call's own id, each invocation is given at most
      one response, and each is written to its device at most once. */
  lemma RepliesMatchCalls(steps: seq<Step>)
    requires Exec(INITIAL, steps).Some?
    ensures var st := Exec(INITIAL, steps).value;
            && (forall c: nat | c < |st.calls| && st.calls[c].phase.Returned? ::
                  st.calls[c].phase.response.id == st.calls[c].id)
            && DeliveredExact(st) && ForwardedOnce(st)
  {
    RunKeepsInvariant(INITIAL, steps);
    var st := Exec(INITIAL, steps).value;
    forall c: nat | c < |st.calls| && st.calls[c].phase.Returned?
      ensures st.calls[c].phase.response.id == st.calls[c].id
    {
      var k :| 0 <= k < |st.delivered| && st.delivered[k].0 == c;
    }
  }

  // ----- How calls get to the device, and when they are turned away -----

  lemma {:induction false} ExecSnoc(st: State, steps: seq<Step>, t: State, e: Step)
    requires Exec(st, steps) == Some(t) && Enabled(t, e)
    ensures Exec(st, steps + [e]) == Some(Next(t, e))
    decreases |steps|
  {
    if steps == [] {
      assert [] + [e] == [e] && [e][1..] == [];
    } else {
      assert (steps + [e])[0] == steps[0] && (steps + [e])[1..] == steps[1..] + [e];
      ExecSnoc(Next(st, steps[0]), steps[1..], t, e);
    }
  }

  /** A run extended by one enabled step. */
  lemma Extend(st: State, steps: seq<Step>, t: State, e: Step) returns (t': State, steps': seq<Step>)
    requires Exec(st, steps) == Some(t) && Enabled(t, e)
    ensures t' == Next(t, e) && steps' == steps + [e] && Exec(st, steps') == Some(t')
  {
    ExecSnoc(st, steps, t, e);
    t', steps' := Next(t, e), steps + [e];
  }

  /** A new local call of a registered dongle gets through to that dongle's session: it finds it open,
      subscribes there under its own id, and is forwarded. */
  lemma LocalCallIsForwarded(start: State, steps: seq<Step>, st: State, c: nat) returns (t: State, more: seq<Step>)
    requires Exec(start, steps) == Some(st)
    requires Sessions.MapOpen(st.reg) && |st.links| == |st.reg.sessions|
    requires c < |st.calls| && st.calls[c].phase.New? && st.calls[c].origin.Local?
    requires st.calls[c].origin.dongleID in st.reg.dongles
    ensures more == steps + [Load(c), CheckOpen(c), Subscribe(c), Send(c)] && Exec(start, more) == Some(t)
    ensures var s := st.reg.dongles[st.calls[c].origin.dongleID];
            var link := st.links[s].(subscribers := st.links[s].subscribers[st.calls[c].id := c]);
            t == st.(calls := st.calls[c := st.calls[c].(phase := Forwarded(s))],
                     links := st.links[s := link],
                     forwarded := st.forwarded + [(s, c)])
  {
    var s := st.reg.dongles[st.calls[c].origin.dongleID];
    t, more := Extend(start, steps, st, Load(c));
    t, more := Extend(start, more, t, CheckOpen(c));
    assert t.calls == st.calls[c := st.calls[c].(phase := Checked(s))];
    t, more := Extend(start, more, t, Subscribe(c));
    t, more := Extend(start, more, t, Send(c));
    assert t.calls == st.calls[c := st.calls[c].(phase := Forwarded(s))];
  }

  /** A call that arrives over NATS for a handler whose session is open is forwarded on that session. */
  lemma NatsCallIsForwarded(start: State, steps: seq<Step>, st: State, id: string, h: nat)
    returns (t: State, more: seq<Step>)
    requires Exec(start, steps) == Some(st)
    requires h < |st.reg.handlers| && Sessions.CountedUp(st.reg.handlers[h])
    requires var s := st.reg.handlers[h].own;
             s < |st.links| && s < |st.reg.sessions| && Sessions.Untouched(st.reg.sessions[s])
    ensures var c := |st.calls|;
            more == steps + [BeginNats(id, h), Subscribe(c), CheckOpen(c), Send(c)] && Exec(start, more) == Some(t)
    ensures var c, s := |st.calls|, st.reg.handlers[h].own;
            t == st.(calls := st.calls + [Call(id, Nats, Forwarded(s))],
                     links := st.links[s := st.links[s].(subscribers := st.links[s].subscribers[id := c])],
                     forwarded := st.forwarded + [(s, c)])
  {
    var c, s := |st.calls|, st.reg.handlers[h].own;
    t, more := Extend(start, steps, st, BeginNats(id, h));
    t, more := Extend(start, more, t, Subscribe(c));
    assert t.calls == st.calls + [Call(id, Nats, Subscribed(s))];
    t, more := SubscribedIsForwarded(start, more, t, c);
    assert t.calls == st.calls + [Call(id, Nats, Forwarded(s))];
  }

  lemma SubscribedIsForwarded(start: State, steps: seq<Step>, st: State, c: nat) returns (t: State, more: seq<Step>)
    requires Exec(start, steps) == Some(st)
    requires c < |st.calls| && st.calls[c].phase.Subscribed? && st.calls[c].origin.Nats?
    requires var s := st.calls[c].phase.s;
             s < |st.links| && s < |st.reg.sessions| && Sessions.Untouched(st.reg.sessions[s])
    ensures more == steps + [CheckOpen(c), Send(c)] && Exec(start, more) == Some(t)
    ensures var s := st.calls[c].phase.s;
            t == st.(calls := st.calls[c := st.calls[c].(phase := Forwarded(s))], forwarded := st.forwarded + [(s, c)])
  {
    var s := st.calls[c].phase.s;
    t, more := Extend(start, steps, st, CheckOpen(c));
    assert t.calls == st.calls[c := st.calls[c].(phase := Ready(s))];
    t, more := Extend(start, more, t, Send(c));
    assert t.calls == st.calls[c := st.calls[c].(phase := Forwarded(s))];
  }

  /** At this step the call is told that its dongle is not connected: the map does not hold the dongle, or
      the session it loaded is no longer open. */
  ghost predicate TurnsAway(st: State, e: Step, c: nat) {
    && c < |st.calls| && st.calls[c].origin.Local?
    && ((e == Load(c) && st.calls[c].origin.dongleID !in st.reg.dongles)
        || (e == CheckOpen(c) && st.calls[c].phase.Loaded? && st.calls[c].phase.s < |st.reg.sessions|
            && !st.reg.sessions[st.calls[c].phase.s].open))
  }

  /** Only local calls are ever rejected or stand before their look at the map. */
  ghost predicate LocalsLook(st: State) {
    forall c: nat | c < |st.calls| && (st.calls[c].phase.New? || st.calls[c].phase.Rejected?) ::
      st.calls[c].origin.Local?
  }

  lemma StepKeepsLocals(st: State, e: Step)
    requires Enabled(st, e) && LocalsLook(st)
    ensures LocalsLook(Next(st, e))
  {
    CallsFrame(st, e);
    var t := Next(st, e);
    forall c: nat | c < |t.calls| && (t.calls[c].phase.New? || t.calls[c].phase.Rejected?)
      ensures t.calls[c].origin.Local?
    {
      if c < |st.calls| && Moved(st, e) == Some(c) {
        assert st.calls[c].origin.Local? || e.Subscribe? || e.CheckOpen? || e.Send? || e.GiveUp? || e.Deliver?;
      }
    }
  }

  lemma RejectedStep(st: State, e: Step, c: nat)
    requires Enabled(st, e) && LocalsLook(st)
    ensures c < |Next(st, e).calls| && Next(st, e).calls[c].phase.Rejected? <==>
            (c < |st.calls| && st.calls[c].phase.Rejected?) || TurnsAway(st, e, c)
  {
    if c < |st.calls| && Moved(st, e) == Some(c) {
      MovedCall(st, e, c);
    } else {
      CallsFrame(st, e);
    }
  }

  /** How the phase of the call that a step moves ends up rejected or abandoned. */
  lemma MovedCall(st: State, e: Step, c: nat)
    requires Enabled(st, e) && c < |st.calls| && Moved(st, e) == Some(c)
    ensures !st.calls[c].phase.Rejected? && !st.calls[c].phase.Abandoned? && c < |Next(st, e).calls|
    ensures LocalsLook(st) ==> (Next(st, e).calls[c].phase.Rejected? <==> TurnsAway(st, e, c))
    ensures Next(st, e).calls[c].phase.Abandoned? <==> Abandons(st, e, c)
  {
    var p := Next(st, e).calls[c].phase;
    match e
    case Load(_) => assert !p.Abandoned?;
    case CheckOpen(_) =>
    case Subscribe(_) => assert p.Ready? || p.Subscribed?;
    case Send(_) => assert p.Forwarded?;
    case GiveUp(_) => assert p.Abandoned?;
    case Deliver(_) => assert p.Returned?;
    case _ => assert false;
  }

  /** A local call ends with "not connected" exactly if its dongle was not in the map when it loaded it, or
      the session it loaded was closed when it looked. */
  lemma {:induction false} RejectedIff(run: seq<Step>, c: nat)
    requires Exec(INITIAL, run).Some?
    ensures LocalsLook(Exec(INITIAL, run).value)
    ensures var st := Exec(INITIAL, run).value;
            c < |st.calls| && st.calls[c].phase.Rejected? <==>
            exists k :: 0 <= k < |run| && StepOf(run, k).Some?
                        && TurnsAway(StepOf(run, k).value, run[k], c)
    decreases |run|
  {
    if run != [] {
      var n := |run| - 1;
      RunPrefix(INITIAL, run, n);
      RejectedIff(run[..n], c);
      StepKeepsLocals(StepOf(run, n).value, run[n]);
      RejectedStep(StepOf(run, n).value, run[n], c);
      forall k | 0 <= k < n ensures StepOf(run[..n], k) == StepOf(run, k) && run[..n][k] == run[k] {
        assert run[..n][..k] == run[..k];
      }
    }
  }

  /** The state a run's k-th step is taken from. */
  function StepOf(run: seq<Step>, k: nat): Option<State>
    requires k <= |run|
  {
    Exec(INITIAL, run[..k])
  }

  /** At this step the call is abandoned: its time is up, or it came over NATS, has subscribed, and finds
      its session closed. */
  predicate Abandons(st: State, e: Step, c: nat) {
    || e == GiveUp(c)
    || (e == CheckOpen(c) && c < |st.calls| && st.calls[c].phase.Subscribed? && st.calls[c].phase.s < |st.reg.sessions|
        && !st.reg.sessions[st.calls[c].phase.s].open)
  }

  lemma AbandonedStep(st: State, e: Step, c: nat)
    requires Enabled(st, e)
    ensures c < |Next(st, e).calls| && Next(st, e).calls[c].phase.Abandoned? <==>
            (c < |st.calls| && st.calls[c].phase.Abandoned?) || Abandons(st, e, c)
  {
    if c < |st.calls| && Moved(st, e) == Some(c) {
      MovedCall(st, e, c);
    } else {
      CallsFrame(st, e);
    }
  }

  /** A call is abandoned exactly if it timed out after it was forwarded, or came over NATS and found its
      session closed. */
  lemma {:induction false} AbandonedIff(run: seq<Step>, c: nat)
    requires Exec(INITIAL, run).Some?
    ensures var st := Exec(INITIAL, run).value;
            c < |st.calls| && st.calls[c].phase.Abandoned? <==>
            exists k :: 0 <= k < |run| && StepOf(run, k).Some? && Abandons(StepOf(run, k).value, run[k], c)
    decreases |run|
  {
    if run != [] {
      var n := |run| - 1;
      RunPrefix(INITIAL, run, n);
      AbandonedIff(run[..n], c);
      AbandonedStep(StepOf(run, n).value, run[n], c);
      forall k | 0 <= k < n ensures StepOf(run[..n], k) == StepOf(run, k) && run[..n][k] == run[k] {
        assert run[..n][..k] == run[..k];
      }
    }
  }

  lemma {:induction false} RunPrefix(st: State, run: seq<Step>, n: nat)
    requires Exec(st, run).Some? && |run| == n + 1
    ensures Exec(st, run[..n]).Some? && Enabled(Exec(st, run[..n]).value, run[n])
    ensures Exec(st, run) == Some(Next(Exec(st, run[..n]).value, run[n]))
    decreases n
  {
    if n == 0 {
      assert run[..0] == [] && run[1..] == [];
    } else {
      assert run[..n][0] == run[0] && run[..n][1..] == run[1..][..n - 1];
      RunPrefix(Next(st, run[0]), run[1..], n - 1);
    }
  }

  // ----- Fresh ids: the first reply finds its subscriber -----

  /** No invocation reuses the id of an earlier one. */
  ghost predicate FreshStep(st: State, e: Step) {
    e.Begin? || e.BeginNats? ==> forall c: nat | c < |st.calls| :: st.calls[c].id != e.id
  }

  ghost predicate FreshRun(st: State, steps: seq<Step>)
    decreases |steps|
  {
    steps == [] || (FreshStep(st, steps[0]) && Enabled(st, steps[0]) && FreshRun(Next(st, steps[0]), steps[1..]))
  }

  /** The call can still be reached by a reply: it is in its session's table or being called. */
  predicate Reachable(st: State, c: nat, s: nat)
    requires c < |st.calls| && s < |st.links|
  {
    || (st.calls[c].id in st.links[s].subscribers && st.links[s].subscribers[st.calls[c].id] == c)
    || (st.links[s].watch.Delivering? && st.links[s].watch.call == c)
  }

  predicate Awaiting(k: Call) { k.phase.Subscribed? || k.phase.Ready? || k.phase.Forwarded? }

  /** Ids are distinct, and every subscribed call that has not been given up can be reached. */
  ghost predicate FreshInv(st: State) {
    && (forall c, c' | 0 <= c < c' < |st.calls| :: st.calls[c].id != st.calls[c'].id)
    && (forall c: nat | c < |st.calls| && Awaiting(st.calls[c]) ::
          st.calls[c].phase.s < |st.links| && Reachable(st, c, st.calls[c].phase.s))
  }

  lemma BeginKeepsFresh(st: State, e: Step)
    requires FreshInv(st) && Enabled(st, e) && FreshStep(st, e) && (e.Begin? || e.BeginNats?)
    ensures FreshInv(Next(st, e))
  {
    var t := Next(st, e);
    assert t.links == st.links;
    forall c: nat | c < |t.calls| && Awaiting(t.calls[c])
      ensures t.calls[c].phase.s < |t.links| && Reachable(t, c, t.calls[c].phase.s)
    {
      assert c < |st.calls| && t.calls[c] == st.calls[c];
      assert Reachable(st, c, st.calls[c].phase.s);
    }
  }

  lemma SubscribeKeepsReachable(st: State, x: nat, c: nat)
    requires FreshInv(st) && Enabled(st, Subscribe(x))
    requires c < |st.calls| && Awaiting(Next(st, Subscribe(x)).calls[c])
    ensures var t := Next(st, Subscribe(x)); t.calls[c].phase.s < |t.links| && Reachable(t, c, t.calls[c].phase.s)
  {
    var t := Next(st, Subscribe(x));
    if x == c {
      assert t.links[t.calls[c].phase.s].subscribers[t.calls[c].id] == c;
    } else {
      var s := st.calls[c].phase.s;
      assert t.calls[c] == st.calls[c] && Reachable(st, c, s) && st.calls[x].id != st.calls[c].id;
      SubscribersFrame(st, Subscribe(x), s);
      WatchFrame(st, Subscribe(x), s);
    }
  }

  lemma StepKeepsReachable(st: State, e: Step, c: nat)
    requires FreshInv(st) && Enabled(st, e)
    requires c < |st.calls| && Awaiting(Next(st, e).calls[c])
    ensures var t := Next(st, e); t.calls[c].phase.s < |t.links| && Reachable(t, c, t.calls[c].phase.s)
  {
    if e.Subscribe? {
      SubscribeKeepsReachable(st, e.c, c);
    } else {
      CallsFrame(st, e);
      var t, s := Next(st, e), st.calls[c].phase.s;
      assert Awaiting(st.calls[c]) && s == t.calls[c].phase.s;
      assert Reachable(st, c, s);
      SubscribersFrame(st, e, s);
      WatchFrame(st, e, s);
    }
  }

  /** What a step can do to the table and the watcher of a session. */
  lemma SubscribersFrame(st: State, e: Step, s: nat)
    requires Enabled(st, e) && s < |st.links|
    ensures var t := Next(st, e);
            && s < |t.links|
            && (!e.Subscribe? && !(e.LookUp? && e.s == s) ==> t.links[s].subscribers == st.links[s].subscribers)
            && (e.Subscribe? ==>
                  || t.links[s].subscribers == st.links[s].subscribers
                  || t.links[s].subscribers == st.links[s].subscribers[st.calls[e.c].id := e.c])
  {
    if e.Subscribe? {
      assert Next(st, e).links == Next(st, Subscribe(e.c)).links;
    } else {
      OtherSubscribersFrame(st, e, s);
    }
  }

  lemma OtherSubscribersFrame(st: State, e: Step, s: nat)
    requires Enabled(st, e) && s < |st.links| && !e.Subscribe?
    ensures var t := Next(st, e);
            && s < |t.links|
            && (!(e.LookUp? && e.s == s) ==> t.links[s].subscribers == st.links[s].subscribers)
  {
    var t := Next(st, e);
    if e.LookUp? || e.Receive? || e.Deliver? {
      var x := if e.Receive? then e.message.s else e.s;
      assert t.links == st.links[x := t.links[x]];
    } else {
      assert e.Registry? || t.links == st.links;
    }
  }

  predicate MovesWatch(e: Step, s: nat) {
    (e.Receive? && e.message.s == s) || ((e.LookUp? || e.Deliver?) && e.s == s)
  }

  lemma WatchFrame(st: State, e: Step, s: nat)
    requires Enabled(st, e) && s < |st.links|
    ensures s < |Next(st, e).links| && (!MovesWatch(e, s) ==> Next(st, e).links[s].watch == st.links[s].watch)
  {
  }

  lemma StepKeepsFresh(st: State, e: Step)
    requires Inv(st) && FreshInv(st) && Enabled(st, e) && FreshStep(st, e)
    ensures FreshInv(Next(st, e))
  {
    if e.Begin? || e.BeginNats? {
      BeginKeepsFresh(st, e);
    } else {
      var t := Next(st, e);
      CallsFrame(st, e);
      forall c: nat | c < |t.calls| && Awaiting(t.calls[c])
        ensures t.calls[c].phase.s < |t.links| && Reachable(t, c, t.calls[c].phase.s)
      {
        StepKeepsReachable(st, e, c);
      }
    }
  }

  lemma {:induction false} FreshRunKeeps(st: State, steps: seq<Step>)
    requires Inv(st) && FreshInv(st) && FreshRun(st, steps)
    ensures Exec(st, steps).Some? && Inv(Exec(st, steps).value) && FreshInv(Exec(st, steps).value)
    decreases |steps|
  {
    if steps != [] {
      StepKeepsTables(st, steps[0]);
      StepKeepsHistory(st, steps[0]);
      StepKeepsFresh(st, steps[0]);
      FreshRunKeeps(Next(st, steps[0]), steps[1..]);
    }
  }

  /** With fresh ids, in every interleaving: when the watcher of a session looks up a reply to a call
      that was forwarded there and has not been given up, it finds that call's subscriber, and the
      delivery then returns this reply from the call. */
  lemma FirstReplyFindsSubscriber(steps: seq<Step>, s: nat, c: nat)
    requires FreshRun(INITIAL, steps)
    ensures Exec(INITIAL, steps).Some?
    ensures var st := Exec(INITIAL, steps).value;
            Enabled(st, LookUp(s)) && c < |st.calls| && st.calls[c].phase == Forwarded(s)
            && st.links[s].watch.response.id == st.calls[c].id ==>
              var t := Next(st, LookUp(s));
              && t.links[s].watch == Delivering(st.links[s].watch.response, c)
              && Enabled(t, Deliver(s))
              && Next(t, Deliver(s)).calls[c].phase == Returned(s, st.links[s].watch.response)
  {
    FreshRunKeeps(INITIAL, steps);
    var st := Exec(INITIAL, steps).value;
    if Enabled(st, LookUp(s)) && c < |st.calls| && st.calls[c].phase == Forwarded(s)
       && st.links[s].watch.response.id == st.calls[c].id {
      LookUpFinds(st, s, c);
    }
  }

  lemma LookUpFinds(st: State, s: nat, c: nat)
    requires FreshInv(st) && Enabled(st, LookUp(s)) && c < |st.calls| && st.calls[c].phase == Forwarded(s)
    requires st.links[s].watch.response.id == st.calls[c].id
    ensures var t := Next(st, LookUp(s));
            && t.links[s].watch == Delivering(st.links[s].watch.response, c)
            && Enabled(t, Deliver(s))
            && Next(t, Deliver(s)).calls[c].phase == Returned(s, st.links[s].watch.response)
  {
    assert Reachable(st, c, s);
    assert Next(st, LookUp(s)).links[s].watch == Delivering(st.links[s].watch.response, c);
  }

  // ----- Exactly which waiting calls can still be answered -----

  lemma StepKeepsUnreachable(st: State, e: Step, c: nat, s: nat)
    requires Inv(st) && Enabled(st, e)
    requires c < |st.calls| && s < |st.links| && !Reachable(st, c, s)
    requires st.calls[c].phase == Forwarded(s) || st.calls[c].phase == Abandoned(s)
    ensures var t := Next(st, e);
            && (t.calls[c].phase == Forwarded(s) || t.calls[c].phase == Abandoned(s)) && s < |t.links|
            && !Reachable(t, c, s)
  {
    CallsFrame(st, e);
    SubscribersFrame(st, e, s);
    WatchFrame(st, e, s);
    if e.LookUp? && e.s == s && st.links[s].watch.response.id in st.links[s].subscribers {
      var x := st.links[s].subscribers[st.links[s].watch.response.id];
      assert st.calls[x].id == st.links[s].watch.response.id;
      assert x != c;
    }
  }

  lemma {:induction false} UnreachableForever(st: State, steps: seq<Step>, c: nat, s: nat)
    requires Inv(st) && Exec(st, steps).Some?
    requires c < |st.calls| && s < |st.links| && !Reachable(st, c, s)
    requires st.calls[c].phase == Forwarded(s) || st.calls[c].phase == Abandoned(s)
    ensures var t := Exec(st, steps).value; c < |t.calls| && !t.calls[c].phase.Returned?
    decreases |steps|
  {
    if steps != [] {
      CallsFrame(st, steps[0]);
      StepKeepsTables(st, steps[0]);
      StepKeepsHistory(st, steps[0]);
      StepKeepsUnreachable(st, steps[0], c, s);
      UnreachableForever(Next(st, steps[0]), steps[1..], c, s);
    }
  }

  // ----- Where a reply can still come from -----

  /** Tables and sessions belong together, and a call's session belongs to a handler that has stored it. */
  ghost predicate Settled(st: State) {
    && |st.links| == |st.reg.sessions| && Sessions.Inv(st.reg)
    && forall c: nat | c < |st.calls| && SessionOf(st.calls[c].phase).Some? ::
         Begun(st, SessionOf(st.calls[c].phase).value)
  }

  function SessionOf(p: Phase): Option<nat> {
    if p.New? || p.Rejected? then None else Some(p.s)
  }

  /** The session has been stored in the map, whether or not it is there now. */
  ghost predicate Begun(st: State, s: nat) {
    && s < |st.reg.sessions|
    && forall h: nat | h < |st.reg.handlers| && st.reg.handlers[h].own == s :: !st.reg.handlers[h].phase.Built?
  }

  lemma StepKeepsBegun(st: State, e: Step, s: nat)
    requires Begun(st, s) && Enabled(st, e)
    ensures Begun(Next(st, e), s)
  {
  }

  lemma StepKeepsSettled(st: State, e: Step)
    requires Settled(st) && Enabled(st, e)
    ensures Settled(Next(st, e))
  {
    var t := Next(st, e);
    if e.Registry? { Sessions.StepKeepsInvariant(st.reg, e.step); }
    forall c: nat | c < |t.calls| && SessionOf(t.calls[c].phase).Some?
      ensures Begun(t, SessionOf(t.calls[c].phase).value)
    {
      CallsSession(st, e, c);
      StepKeepsBegun(st, e, SessionOf(t.calls[c].phase).value);
    }
  }

  lemma CallsSession(st: State, e: Step, c: nat)
    requires Settled(st) && Enabled(st, e)
    requires c < |Next(st, e).calls| && SessionOf(Next(st, e).calls[c].phase).Some?
    ensures Begun(st, SessionOf(Next(st, e).calls[c].phase).value)
  {
    var t := Next(st, e);
    if e.Load? && e.c == c {
      assert st.reg.dongles[st.calls[c].origin.dongleID] == SessionOf(t.calls[c].phase).value;
    } else if c < |st.calls| {
      assert SessionOf(t.calls[c].phase) == SessionOf(st.calls[c].phase);
    }
  }

  /** A message that is on its way to session s and will get there. */
  ghost predicate OnItsWay(st: State, s: nat, id: string)
    requires s < |st.reg.sessions|
  {
    && !st.reg.sessions[s].outboundClosed
    && ((exists m: Message :: m in st.pending && m.s == s && m.response.id == id)
        || exists m: Message ::
             m in st.loaded && m.s == s && m.response.id == id && (m.turn.First? || st.reg.sessions[s].open))
  }

  /** The device can still send to session s: the map holds it, and a connection of its dongle that reads
      messages is there or just being set up. */
  ghost predicate Listening(r: Sessions.State, s: nat)
    requires s < |r.sessions|
  {
    var d := r.sessions[s].dongleID;
    d in r.dongles && r.dongles[d] == s && exists h: nat :: h < |r.handlers| && Reads(r.handlers[h], d)
  }

  predicate Reads(h: Sessions.Handler, d: string) { h.dongleID == d && (h.phase.Stored? || h.phase.Connected?) }

  /** The watcher of session s is at a reply with this id. */
  predicate WatchedFor(st: State, s: nat, id: string)
    requires s < |st.links|
  {
    !st.links[s].watch.Idle? && st.links[s].watch.response.id == id
  }

  ghost predicate ReplyPossible(st: State, s: nat, id: string)
    requires s < |st.links| && s < |st.reg.sessions|
  {
    WatchedFor(st, s, id) || OnItsWay(st, s, id) || Listening(st.reg, s)
  }

  /** The registry never registers a begun session again, and a handler only starts to read by storing
      its own. */
  lemma RegistryKeepsDeaf(r: Sessions.State, e: Sessions.Step, s: nat)
    requires Sessions.Inv(r) && Sessions.Enabled(r, e) && s < |r.sessions| && !Listening(r, s)
    requires forall h: nat | h < |r.handlers| && r.handlers[h].own == s :: !r.handlers[h].phase.Built?
    ensures s < |Sessions.Next(r, e).sessions| && !Listening(Sessions.Next(r, e), s)
  {
    var d, t := r.sessions[s].dongleID, Sessions.Next(r, e);
    assert t.sessions[s].dongleID == d;
    if e.Store? {
      assert d in t.dongles && t.dongles[d] == s ==>
          d in r.dongles && r.dongles[d] == s && r.handlers[e.h].dongleID != d;
    }
    forall h: nat | h < |t.handlers| && Reads(t.handlers[h], d) && !(e.Store? && e.h == h)
      ensures h < |r.handlers| && Reads(r.handlers[h], d)
    {
    }
  }

  lemma StepKeepsDeaf(st: State, e: Step, s: nat)
    requires Settled(st) && Enabled(st, e) && Begun(st, s) && !Listening(st.reg, s)
    ensures s < |Next(st, e).reg.sessions| && !Listening(Next(st, e).reg, s)
  {
    if e.Registry? { RegistryKeepsDeaf(st.reg, e.step, s); }
  }

  /** Where the messages handled in a step come from. */
  lemma MessageOrigin(st: State, e: Step, m: Message)
    requires Enabled(st, e)
    ensures m in Next(st, e).pending ==>
            m in st.pending || (m in st.loaded && m.s < |st.reg.sessions| && Sends(st, m))
    ensures m in Next(st, e).loaded ==>
            || m in st.loaded
            || (e.OnMessage? && m.s == st.reg.dongles[st.reg.handlers[e.h].dongleID])
            || (e.Receive? && m == e.message.(turn := Last) && e.message in st.pending)
  {
  }

  /** A message comes on its way only from a listening session. */
  lemma StepKeepsNothingOnItsWay(st: State, e: Step, s: nat, id: string)
    requires Settled(st) && Enabled(st, e) && s < |st.reg.sessions| && !OnItsWay(st, s, id) && !Listening(st.reg, s)
    ensures s < |Next(st, e).reg.sessions| && !OnItsWay(Next(st, e), s, id)
  {
    var t := Next(st, e);
    SessionsClose(st, e, s);
    if e.OnMessage? {
      assert st.reg.dongles[st.reg.handlers[e.h].dongleID] != s;
    }
    forall m: Message | m.s == s && m.response.id == id && (m in t.pending || (m in t.loaded && Sends(t, m)))
      ensures t.reg.sessions[s].outboundClosed
    {
      MessageOrigin(st, e, m);
    }
  }

  /** A session keeps its dongle, never opens again, and its outbound channel stays closed. */
  lemma SessionsClose(st: State, e: Step, s: nat)
    requires Enabled(st, e) && s < |st.reg.sessions|
    ensures var x := st.reg.sessions[s];
            && s < |Next(st, e).reg.sessions|
            && var y := Next(st, e).reg.sessions[s];
               y.dongleID == x.dongleID && (y.open ==> x.open) && (x.outboundClosed ==> y.outboundClosed)
  {
  }

  lemma StepKeepsUnwatched(st: State, e: Step, s: nat, id: string)
    requires Enabled(st, e) && s < |st.links| && s < |st.reg.sessions|
    requires !WatchedFor(st, s, id) && !OnItsWay(st, s, id)
    ensures s < |Next(st, e).links| && !WatchedFor(Next(st, e), s, id)
  {
    WatchFrame(st, e, s);
    if e.Receive? && e.message.s == s {
      assert e.message in st.pending && e.message.response.id != id;
    }
  }

  /** A waiting call that no reply can come for is never answered. */
  lemma {:induction false} NoReplyForever(st: State, steps: seq<Step>, c: nat, s: nat)
    requires Inv(st) && Settled(st) && Exec(st, steps).Some?
    requires c < |st.calls| && s < |st.links|
    requires st.calls[c].phase == Forwarded(s) || st.calls[c].phase == Abandoned(s)
    requires !ReplyPossible(st, s, st.calls[c].id)
    ensures var t := Exec(st, steps).value; c < |t.calls| && !t.calls[c].phase.Returned?
    decreases |steps|
  {
    if steps != [] {
      var e, id := steps[0], st.calls[c].id;
      assert Begun(st, SessionOf(st.calls[c].phase).value);
      StepKeepsTables(st, e);
      StepKeepsHistory(st, e);
      StepKeepsSettled(st, e);
      StepKeepsDeaf(st, e, s);
      StepKeepsNothingOnItsWay(st, e, s, id);
      StepKeepsUnwatched(st, e, s, id);
      StepKeepsWaiting(st, e, c, s);
      NoReplyForever(Next(st, e), steps[1..], c, s);
    }
  }

  lemma StepKeepsWaiting(st: State, e: Step, c: nat, s: nat)
    requires WatchersRight(st) && Enabled(st, e) && c < |st.calls| && s < |st.links|
    requires st.calls[c].phase == Forwarded(s) || st.calls[c].phase == Abandoned(s)
    requires !WatchedFor(st, s, st.calls[c].id)
    ensures var t := Next(st, e);
            && c < |t.calls| && t.calls[c].id == st.calls[c].id && s < |t.links|
            && (t.calls[c].phase == Forwarded(s) || t.calls[c].phase == Abandoned(s))
  {
    CallsFrame(st, e);
    WatchFrame(st, e, s);
    if e.Deliver? { assert st.links[e.s].watch.call != c; }
  }

  // ----- Answering -----

  /** A pending reply with the id of a call in the table is delivered to it. */
  lemma DeliverPending(start: State, steps: seq<Step>, st: State, c: nat, m: Message)
    returns (t: State, more: seq<Step>)
    requires Exec(start, steps) == Some(st)
    requires c < |st.calls| && m.s < |st.links| && m.s < |st.reg.sessions| && m in st.pending
    requires st.calls[c].phase == Forwarded(m.s) && m.response.id == st.calls[c].id
    requires st.calls[c].id in st.links[m.s].subscribers && st.links[m.s].subscribers[st.calls[c].id] == c
    requires st.links[m.s].watch.Idle? && !st.reg.sessions[m.s].outboundClosed
    ensures Exec(start, more) == Some(t) && |t.calls| == |st.calls|
    ensures t.calls[c] == st.calls[c].(phase := Returned(m.s, m.response))
  {
    t, more := Extend(start, steps, st, Receive(m));
    assert t.calls == st.calls && t.links[m.s] == Link(st.links[m.s].subscribers, Holding(m.response));
    t, more := DeliverHeld(start, more, t, c, m.s);
  }

  lemma DeliverHeld(start: State, steps: seq<Step>, st: State, c: nat, s: nat) returns (t: State, more: seq<Step>)
    requires Exec(start, steps) == Some(st) && c < |st.calls| && s < |st.links|
    requires st.calls[c].phase == Forwarded(s)
    requires st.links[s].watch.Holding? && st.links[s].watch.response.id == st.calls[c].id
    requires st.calls[c].id in st.links[s].subscribers && st.links[s].subscribers[st.calls[c].id] == c
    ensures Exec(start, more) == Some(t) && |t.calls| == |st.calls|
    ensures t.calls[c] == st.calls[c].(phase := Returned(s, st.links[s].watch.response))
  {
    t, more := Extend(start, steps, st, LookUp(s));
    assert t.calls == st.calls && t.links[s].watch == Delivering(st.links[s].watch.response, c);
    t, more := Extend(start, more, t, Deliver(s));
  }

  /** A listening session can be sent any reply. */
  lemma SendReply(start: State, steps: seq<Step>, st: State, s: nat, r: Response) returns (t: State, more: seq<Step>)
    requires Exec(start, steps) == Some(st) && s < |st.reg.sessions| && Listening(st.reg, s) && Sessions.MapOpen(st.reg)
    ensures Exec(start, more) == Some(t) && Message(s, r, Last) in t.pending
    ensures t.calls == st.calls && t.links == st.links && t.reg.sessions == st.reg.sessions
  {
    var d := st.reg.sessions[s].dongleID;
    var h: nat :| h < |st.reg.handlers| && Reads(st.reg.handlers[h], d);
    t, more := st, steps;
    if st.reg.handlers[h].phase.Stored? {
      t, more := Extend(start, steps, st, Registry(Sessions.CountUp(h)));
    }
    t, more := Extend(start, more, t, OnMessage(h, r, Last));
    t, more := Extend(start, more, t, Offer(Message(s, r, Last)));
  }

  /** forwardLogs is acknowledged twice: when the session listens, its watcher is free and nobody waits for
      the id, both sends can be received and looked up, and nothing is left of them. */
  lemma ForwardLogsAcknowledgesTwice(st: State, h: nat, s: nat, r: Response) returns (t: State, steps: seq<Step>)
    requires Sessions.MapOpen(st.reg) && s < |st.links| && s < |st.reg.sessions|
    requires h < |st.reg.handlers| && st.reg.handlers[h].phase.Connected?
    requires st.reg.handlers[h].dongleID in st.reg.dongles && st.reg.dongles[st.reg.handlers[h].dongleID] == s
    requires st.links[s].watch.Idle? && r.id !in st.links[s].subscribers
    ensures var first, second := Message(s, r, First), Message(s, r, Last);
            steps == [OnMessage(h, r, First)] + [Offer(first), Receive(first), LookUp(s)]
                   + [Offer(second), Receive(second), LookUp(s)]
    ensures Exec(st, steps) == Some(t) && t == st
  {
    var first, second := Message(s, r, First), Message(s, r, Last);
    t, steps := Extend(st, [], st, OnMessage(h, r, First));
    assert steps == [OnMessage(h, r, First)];
    t, steps := SendUnwanted(st, steps, t, first);
    assert t == st.(loaded := st.loaded + multiset{second});
    t, steps := SendUnwanted(st, steps, t, second);
    assert t == st;
  }

  /** A loaded message nobody waits for is sent, received and dropped; a first one leaves its second send. */
  lemma SendUnwanted(start: State, steps: seq<Step>, st: State, m: Message) returns (t: State, more: seq<Step>)
    requires Exec(start, steps) == Some(st) && m in st.loaded
    requires m.s < |st.links| && m.s < |st.reg.sessions| && Sessions.Untouched(st.reg.sessions[m.s])
    requires st.links[m.s].watch.Idle? && m.response.id !in st.links[m.s].subscribers
    ensures more == steps + [Offer(m), Receive(m), LookUp(m.s)] && Exec(start, more) == Some(t)
    ensures t == st.(loaded := st.loaded - multiset{m} +
                               if m.turn.First? then multiset{m.(turn := Last)} else multiset{})
  {
    t, more := Extend(start, steps, st, Offer(m));
    ghost var sent := st.(loaded := st.loaded - multiset{m}, pending := st.pending + multiset{m});
    assert t == sent && sent.pending - multiset{m} == st.pending;
    t, more := ReceiveUnwanted(start, more, t, m);
  }

  lemma ReceiveUnwanted(start: State, steps: seq<Step>, st: State, m: Message) returns (t: State, more: seq<Step>)
    requires Exec(start, steps) == Some(st) && Enabled(st, Receive(m)) && m.response.id !in st.links[m.s].subscribers
    ensures more == steps + [Receive(m), LookUp(m.s)] && Exec(start, more) == Some(t)
    ensures t == st.(pending := st.pending - multiset{m},
                     loaded := st.loaded + if m.turn.First? then multiset{m.(turn := Last)} else multiset{})
  {
    t, more := Extend(start, steps, st, Receive(m));
    assert t.links == st.links[m.s := st.links[m.s].(watch := Holding(m.response))];
    t, more := Extend(start, more, t, LookUp(m.s));
    assert t.links == st.links;
  }

  lemma AnswerPossible(st: State, c: nat, s: nat) returns (t: State, steps: seq<Step>)
    requires Sessions.MapOpen(st.reg) && c < |st.calls| && s < |st.links| && s < |st.reg.sessions|
    requires st.calls[c].phase == Forwarded(s) && st.links[s].watch.Idle?
    requires st.calls[c].id in st.links[s].subscribers && st.links[s].subscribers[st.calls[c].id] == c
    requires OnItsWay(st, s, st.calls[c].id) || Listening(st.reg, s)
    ensures Exec(st, steps) == Some(t) && c < |t.calls| && t.calls[c].phase.Returned?
  {
    var id := st.calls[c].id;
    var m: Message;
    t, steps := st, [];
    if Listening(st.reg, s) {
      m := Message(s, Response(id, ""), Last);
      t, steps := SendReply(st, [], st, s, m.response);
    } else if x: Message :| x in st.pending && x.s == s && x.response.id == id {
      m := x;
    } else {
      m :| m in st.loaded && m.s == s && m.response.id == id && Sends(st, m);
      t, steps := Extend(st, [], st, Offer(m));
    }
    t, steps := DeliverPending(st, steps, t, c, m);
  }

  lemma {:induction false} RunKeepsSettled(st: State, steps: seq<Step>)
    requires Settled(st) && Exec(st, steps).Some?
    ensures Settled(Exec(st, steps).value)
    decreases |steps|
  {
    if steps != [] {
      StepKeepsSettled(st, steps[0]);
      RunKeepsSettled(Next(st, steps[0]), steps[1..]);
    }
  }

  /** Exactly which waiting calls can still be answered, in every reachable state and for any ids: with
      the watcher of the call's session free, those that are in the session's table and for which a
      message of their id is on its way to the session or the device can still send one to it. A later
      subscription under the same id, such as a retry of the same call over NATS, takes the place in the
      table for ever; a reconnect of the dongle takes the messages away for ever. */
  lemma AnswerableIff(run: seq<Step>, c: nat, s: nat)
    requires Exec(INITIAL, run).Some?
    requires var st := Exec(INITIAL, run).value;
             && c < |st.calls| && st.calls[c].phase == Forwarded(s) && s < |st.links| && s < |st.reg.sessions|
             && st.links[s].watch.Idle?
    ensures var st := Exec(INITIAL, run).value;
            (exists steps :: Exec(st, steps).Some? && c < |Exec(st, steps).value.calls|
                             && Exec(st, steps).value.calls[c].phase.Returned?)
            <==>
            && st.calls[c].id in st.links[s].subscribers && st.links[s].subscribers[st.calls[c].id] == c
            && (OnItsWay(st, s, st.calls[c].id) || Listening(st.reg, s))
  {
    RunKeepsInvariant(INITIAL, run);
    RunKeepsSettled(INITIAL, run);
    var st := Exec(INITIAL, run).value;
    if Reachable(st, c, s) && (OnItsWay(st, s, st.calls[c].id) || Listening(st.reg, s)) {
      var t, steps := AnswerPossible(st, c, s);
    } else {
      forall steps | Exec(st, steps).Some?
        ensures c < |Exec(st, steps).value.calls| ==> !Exec(st, steps).value.calls[c].phase.Returned?
      {
        if Reachable(st, c, s) {
          NoReplyForever(st, steps, c, s);
        } else {
          UnreachableForever(st, steps, c, s);
        }
      }
    }
  }

  /** A reconnect strands a waiting call: once another handler of the dongle has stored its session, a call
      forwarded on the old one that no message is on its way to is never answered. */
  lemma ReconnectStrandsCall(run: seq<Step>, h: nat, c: nat, s: nat, steps: seq<Step>)
    requires Exec(INITIAL, run).Some?
    requires var st := Exec(INITIAL, run).value;
             && c < |st.calls| && st.calls[c].phase == Forwarded(s) && s < |st.links| && s < |st.reg.sessions|
             && !WatchedFor(st, s, st.calls[c].id) && !OnItsWay(st, s, st.calls[c].id)
             && Enabled(st, Registry(Sessions.Store(h)))
             && st.reg.handlers[h].dongleID == st.reg.sessions[s].dongleID
             && Exec(Next(st, Registry(Sessions.Store(h))), steps).Some?
    ensures var t := Exec(Next(Exec(INITIAL, run).value, Registry(Sessions.Store(h))), steps).value;
            c < |t.calls| && !t.calls[c].phase.Returned?
  {
    RunKeepsInvariant(INITIAL, run);
    RunKeepsSettled(INITIAL, run);
    var st, e := Exec(INITIAL, run).value, Registry(Sessions.Store(h));
    assert Begun(st, SessionOf(st.calls[c].phase).value);
    StepKeepsTables(st, e);
    StepKeepsHistory(st, e);
    StepKeepsSettled(st, e);
    StoreDeafens(st, h, s, st.calls[c].id);
    NoReplyForever(Next(st, e), steps, c, s);
  }

  lemma StoreDeafens(st: State, h: nat, s: nat, id: string)
    requires Begun(st, s) && s < |st.links| && !WatchedFor(st, s, id) && !OnItsWay(st, s, id)
    requires Enabled(st, Registry(Sessions.Store(h))) && st.reg.handlers[h].dongleID == st.reg.sessions[s].dongleID
    ensures var t := Next(st, Registry(Sessions.Store(h)));
            t.calls == st.calls && s < |t.links| && s < |t.reg.sessions| && !ReplyPossible(t, s, id)
  {
    var t := Next(st, Registry(Sessions.Store(h)));
    assert t.links == st.links && t.reg.sessions == st.reg.sessions;
    assert t.pending == st.pending && t.loaded == st.loaded;
    assert t.reg.dongles[st.reg.sessions[s].dongleID] == st.reg.handlers[h].own != s;
    assert !Listening(t.reg, s);
  }

  /** A repeated id does take it: after another invocation subscribes under the id of a waiting call on
      the same session, the waiting call is never answered. */
  lemma RepeatedIdStarvesCall(st: State, c: nat, c2: nat, s: nat, steps: seq<Step>)
    requires Inv(st) && c < |st.calls| && c2 < |st.calls| && c != c2 && st.calls[c2].id == st.calls[c].id
    requires st.calls[c].phase == Forwarded(s) && s < |st.links| && st.links[s].watch.Idle?
    requires Enabled(st, Subscribe(c2)) && st.calls[c2].phase.s == s
    requires Exec(Next(st, Subscribe(c2)), steps).Some?
    ensures var t := Exec(Next(st, Subscribe(c2)), steps).value;
            c < |t.calls| && !t.calls[c].phase.Returned?
  {
    StepKeepsTables(st, Subscribe(c2));
    StepKeepsHistory(st, Subscribe(c2));
    UnreachableForever(Next(st, Subscribe(c2)), steps, c, s);
  }
}
