/** A call that goes over NATS from end to end: the request loop of rpc.go on the calling server, and the
    NATS handlers of websocket.go on the server that has the device. */
module RemoteCalls {
  import opened Prelude
  import opened ApiModels
  import NatsRetry
  import Correlator
  import Sessions

  /** The NATS handler of websocket.go for a request with this id returned this response. */
  ghost predicate Answered(st: Correlator.State, id: string, c: nat, r: Response) {
    && c < |st.calls| && st.calls[c].origin.Nats? && st.calls[c].id == id
    && st.calls[c].phase.Returned? && st.calls[c].phase.response == r
  }

  /** Each reply among the outcomes is what some handler invoked for a request of this id returned. */
  ghost predicate OutcomesOf(st: Correlator.State, id: string, outcomes: seq<NatsRetry.Outcome>) {
    forall i | 0 <= i < |outcomes| && outcomes[i].Reply? :: exists c: nat :: Answered(st, id, c, outcomes[i].response)
  }

  /** Whatever requests were retried, and however the replies, the device's messages, other calls and
      reconnects interleave: a response that the remote path returns carries the call's id, and it was
      sent by the device on a session of the called handler and delivered to that handler alone. */
  lemma RemoteReplyMatchesCall(
    steps: seq<Correlator.Step>, id: string, outcomes: seq<NatsRetry.Outcome>, r: Response)
    requires Correlator.Exec(Correlator.INITIAL, steps).Some?
    requires OutcomesOf(Correlator.Exec(Correlator.INITIAL, steps).value, id, outcomes)
    requires NatsRetry.Resolve(NatsRetry.WithoutNaks(outcomes)) == NatsRetry.Replied(r)
    ensures r.id == id
    ensures var st := Correlator.Exec(Correlator.INITIAL, steps).value;
            exists c: nat :: Answered(st, id, c, r) && (c, r) in st.delivered
                             && forall x | x in st.delivered && x.0 == c :: x.1 == r
  {
    var st := Correlator.Exec(Correlator.INITIAL, steps).value;
    Correlator.RepliesMatchCalls(steps);
    NatsRetry.RepliesIffFirstDecisive(outcomes, r);
    NatsRetry.WithoutNaksMembers(outcomes);
    var k :| 0 <= k < |NatsRetry.WithoutNaks(outcomes)| && NatsRetry.WithoutNaks(outcomes)[k] == NatsRetry.Reply(r);
    var i :| 0 <= i < |outcomes| && outcomes[i] == NatsRetry.Reply(r);
    var c: nat :| Answered(st, id, c, outcomes[i].response);
    DeliveredOnce(st, c);
  }

  lemma DeliveredOnce(st: Correlator.State, c: nat)
    requires Correlator.DeliveredExact(st) && c < |st.calls| && st.calls[c].phase.Returned?
    ensures (c, st.calls[c].phase.response) in st.delivered
    ensures forall x | x in st.delivered && x.0 == c :: x.1 == st.calls[c].phase.response
  {
    var k :| 0 <= k < |st.delivered| && st.delivered[k].0 == c;
    assert st.delivered[k] == (c, st.calls[c].phase.response);
  }

  /** Such answers exist: a dongle connects, a request arrives over NATS, is forwarded and answered. */
  lemma AnswerExists(d: string, id: string, payload: string) returns (st: Correlator.State, steps: seq<Correlator.Step>)
    ensures Correlator.Exec(Correlator.INITIAL, steps) == Some(st) && Answered(st, id, 0, Response(id, payload))
  {
    var start, r := Correlator.INITIAL, Response(id, payload);
    st, steps := Waiting(d, id);
    st, steps := Correlator.SendReply(start, steps, st, 0, r);
    st, steps := Correlator.DeliverPending(start, steps, st, 0, Correlator.Message(0, r, Correlator.Last));
  }

  /** And so do answers to calls made on the server that has the device. */
  lemma LocalAnswerExists(d: string, id: string, payload: string)
    returns (st: Correlator.State, steps: seq<Correlator.Step>)
    ensures Correlator.Exec(Correlator.INITIAL, steps) == Some(st)
    ensures st.calls == [Correlator.Call(id, Correlator.Local(d), Correlator.Returned(0, Response(id, payload)))]
  {
    var start, r := Correlator.INITIAL, Response(id, payload);
    st, steps := ConnectFirst(d);
    st, steps := Correlator.Extend(start, steps, st, Correlator.Begin(id, d));
    st, steps := Correlator.LocalCallIsForwarded(start, steps, st, 0);
    assert st.links == [Correlator.Link(map[id := 0], Correlator.Idle)];
    assert Correlator.Reads(st.reg.handlers[0], d);
    st, steps := Correlator.SendReply(start, steps, st, 0, r);
    st, steps := Correlator.DeliverPending(start, steps, st, 0, Correlator.Message(0, r, Correlator.Last));
  }

  /** The request has been forwarded to the device of a fresh session, which listens. */
  lemma Waiting(d: string, id: string) returns (st: Correlator.State, steps: seq<Correlator.Step>)
    ensures Correlator.Exec(Correlator.INITIAL, steps) == Some(st)
    ensures st.calls == [Correlator.Call(id, Correlator.Nats, Correlator.Forwarded(0))]
    ensures st.links == [Correlator.Link(map[id := 0], Correlator.Idle)]
    ensures st.reg.sessions == [Sessions.Session(d, true, false, false)]
    ensures Correlator.Listening(st.reg, 0) && Sessions.MapOpen(st.reg)
  {
    var start := Correlator.INITIAL;
    st, steps := ConnectFirst(d);
    st, steps := Correlator.NatsCallIsForwarded(start, steps, st, id, 0);
    assert Correlator.Reads(st.reg.handlers[0], d);
  }

  lemma ConnectFirst(d: string) returns (st: Correlator.State, steps: seq<Correlator.Step>)
    ensures Correlator.Exec(Correlator.INITIAL, steps) == Some(st)
    ensures st.calls == [] && st.links == [Correlator.Link(map[], Correlator.Idle)]
    ensures st.reg == FirstSession(d, Sessions.Connected, map[d := 0], map[d := 1])
  {
    var start := Correlator.INITIAL;
    FirstBuilt(d);
    FirstStored(d);
    FirstConnected(d);
    st, steps := Correlator.Extend(start, [], start, Correlator.Registry(Sessions.Connect(d)));
    assert st.links == [Correlator.Link(map[], Correlator.Idle)];
    st, steps := Correlator.Extend(start, steps, st, Correlator.Registry(Sessions.Store(0)));
    st, steps := Correlator.Extend(start, steps, st, Correlator.Registry(Sessions.CountUp(0)));
  }

  function FirstSession(d: string, phase: Sessions.Phase, dongles: map<string, nat>, gauge: map<string, int>)
    : Sessions.State
  {
    Sessions.State([Sessions.Session(d, true, false, false)], dongles, gauge, [Sessions.Handler(d, 0, phase)])
  }

  lemma FirstBuilt(d: string)
    ensures Sessions.Next(Sessions.INITIAL, Sessions.Connect(d)) == FirstSession(d, Sessions.Built, map[], map[])
  {
  }

  lemma FirstStored(d: string)
    ensures var s := FirstSession(d, Sessions.Built, map[], map[]);
            Sessions.Next(s, Sessions.Store(0)) == FirstSession(d, Sessions.Stored, map[d := 0], map[])
  {
  }

  lemma FirstConnected(d: string)
    ensures var s := FirstSession(d, Sessions.Stored, map[d := 0], map[]);
            Sessions.Next(s, Sessions.CountUp(0)) == FirstSession(d, Sessions.Connected, map[d := 0], map[d := 1])
  {
  }
}
