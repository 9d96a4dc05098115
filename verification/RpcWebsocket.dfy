/** The RPCWebsocket object of internal/server/websocket/websocket.go: OnConnect and OnDisconnect when
    they run undisturbed, on shared bidiChannel objects, tied to the session transition system. */
module RpcWebsockets {
  import opened Prelude
  import opened Sessions

  // ----- The undisturbed calls on values -----

  /** A new session is registered under the dongle, any earlier one left out of the map. */
  function AfterConnect(s: State, d: string): State {
    State(s.sessions + [Session(d, true, false, false)], s.dongles[d := |s.sessions|],
          s.gauge[d := Gauge(s, d) + 1], s.handlers + [Handler(d, |s.sessions|, Connected)])
  }

  lemma ConnectRun(s: State, d: string) returns (steps: seq<Step>)
    ensures steps == [Connect(d), Store(|s.handlers|), CountUp(|s.handlers|)]
    ensures Exec(s, steps) == Some(AfterConnect(s, d))
  {
    var h, t := |s.handlers|, s;
    t, steps := ExtendRun(s, [], t, Connect(d));
    t, steps := ExtendRun(s, steps, t, Store(h));
    t, steps := ExtendRun(s, steps, t, CountUp(h));
    assert t.handlers == s.handlers + [Handler(d, |s.sessions|, Connected)];
  }

  /** Whatever session the map holds for the dongle is taken out and, unless NATS reports a draining or
      closed connection, closed. */
  function AfterDisconnect(s: State, h: nat, draining: bool): State
    requires h < |s.handlers| && MapOpen(s)
  {
    var d := s.handlers[h].dongleID;
    var t := s.(gauge := s.gauge[d := Gauge(s, d) - 1], handlers := s.handlers[h := s.handlers[h].(phase := Gone)]);
    if d !in s.dongles then t
    else
      var x, u := s.dongles[d], t.(dongles := s.dongles - {d});
      if draining then u else u.(sessions := s.sessions[x := Session(s.sessions[x].dongleID, false, true, true)])
  }

  lemma DisconnectRun(s: State, h: nat, draining: bool) returns (steps: seq<Step>)
    requires h < |s.handlers| && s.handlers[h].phase.Connected? && MapOpen(s)
    ensures steps == [CountDown(h), Take(h)] +
                     if s.handlers[h].dongleID !in s.dongles then []
                     else if draining then [Abort(h)] else [Mark(h), CloseInbound(h), CloseOutbound(h)]
    ensures Exec(s, steps) == Some(AfterDisconnect(s, h, draining))
  {
    var d, t := s.handlers[h].dongleID, s;
    t, steps := ExtendRun(s, [], t, CountDown(h));
    t, steps := ExtendRun(s, steps, t, Take(h));
    if d in s.dongles {
      if draining {
        t, steps := ExtendRun(s, steps, t, Abort(h));
      } else {
        t, steps := CloseRun(s, steps, t, h);
      }
    }
    assert t.handlers == s.handlers[h := s.handlers[h].(phase := Gone)];
  }

  lemma CloseRun(s: State, steps: seq<Step>, t: State, h: nat) returns (u: State, more: seq<Step>)
    requires Exec(s, steps) == Some(t)
    requires h < |t.handlers| && t.handlers[h].phase.Taken? && t.handlers[h].phase.session < |t.sessions|
    ensures more == steps + [Mark(h), CloseInbound(h), CloseOutbound(h)] && Exec(s, more) == Some(u)
    ensures var x := t.handlers[h].phase.session;
            u == t.(sessions := t.sessions[x := Session(t.sessions[x].dongleID, false, true, true)],
                    handlers := t.handlers[h := t.handlers[h].(phase := Gone)])
  {
    var x := t.handlers[h].phase.session;
    u, more := ExtendRun(s, steps, t, Mark(h));
    u, more := ExtendRun(s, more, u, CloseInbound(h));
    u, more := ExtendRun(s, more, u, CloseOutbound(h));
    assert u.sessions == t.sessions[x := Session(t.sessions[x].dongleID, false, true, true)];
    assert u.handlers == t.handlers[h := t.handlers[h].(phase := Gone)];
  }

  /** Undisturbed calls keep the invariant of the life cycle. */
  lemma UndisturbedCallsKeepInvariant(s: State, d: string, h: nat, draining: bool)
    requires Inv(s)
    ensures Inv(AfterConnect(s, d))
    ensures h < |s.handlers| && s.handlers[h].phase.Connected? ==> Inv(AfterDisconnect(s, h, draining))
  {
    var steps := ConnectRun(s, d);
    RunKeepsInvariant(s, steps);
    if h < |s.handlers| && s.handlers[h].phase.Connected? {
      steps := DisconnectRun(s, h, draining);
      RunKeepsInvariant(s, steps);
    }
  }

  // ----- The object -----

  class BidiChannel {
    ghost const dongleID: string
    ghost const index: nat    // its place among all that were ever built
    var open: bool
    var inboundClosed: bool
    var outboundClosed: bool

    constructor (ghost dongleID: string, ghost index: nat)
      ensures this.dongleID == dongleID && this.index == index
      ensures open && !inboundClosed && !outboundClosed
    {
      this.dongleID, this.index := dongleID, index;
      open, inboundClosed, outboundClosed := true, false, false;
    }

    ghost function Abs(): Session
      reads this
    {
      Session(dongleID, open, inboundClosed, outboundClosed)
    }

    /** The last three statements of OnDisconnect. Closing a closed channel would panic. */
    method Close()
      requires !inboundClosed && !outboundClosed
      modifies this
      ensures Abs() == Session(dongleID, false, true, true)
    {
      open := false;
      inboundClosed := true;
      outboundClosed := true;
    }
  }

  class RPCWebsocket {
    var dongles: map<string, BidiChannel>
    var gauge: map<string, int>
    ghost var built: seq<BidiChannel>
    ghost var state: State

    /** The fields and the objects they lead to are those of the state. */
    ghost predicate Valid()
      reads this, built
    {
      && |built| == |state.sessions|
      && (forall i | 0 <= i < |built| :: built[i].index == i && built[i].Abs() == state.sessions[i])
      && dongles.Keys == state.dongles.Keys
      && (forall d | d in dongles :: state.dongles[d] < |built| && built[state.dongles[d]] == dongles[d])
      && gauge == state.gauge
    }

    constructor ()
      ensures Valid() && state == INITIAL
    {
      dongles, gauge, built, state := map[], map[], [], INITIAL;
    }

    method OnConnect(dongleID: string)
      requires Valid()
      modifies this
      ensures Valid() && state == AfterConnect(old(state), dongleID)
      ensures |built| == |old(built)| + 1 && built[..|old(built)|] == old(built) && fresh(built[|old(built)|])
    {
      var bidi := new BidiChannel(dongleID, |built|);
      built := built + [bidi];
      dongles := dongles[dongleID := bidi];
      gauge := gauge[dongleID := (if dongleID in gauge then gauge[dongleID] else 0) + 1];
      state := AfterConnect(state, dongleID);
    }

    /** The gauge is decremented and LoadAndDelete takes out what the map holds for the dongle. */
    method TakeOut(dongleID: string, ghost h: nat) returns (taken: Option<BidiChannel>)
      requires Valid() && MapOpen(state)
      requires h < |state.handlers| && state.handlers[h].dongleID == dongleID
      modifies this
      ensures Valid() && built == old(built) && state == AfterDisconnect(old(state), h, true)
      ensures taken.Some? <==> dongleID in old(state).dongles
      ensures taken.Some? ==>
                old(state).dongles[dongleID] < |built| && taken.value == built[old(state).dongles[dongleID]]
    {
      ghost var s := state;
      taken := Lookup(dongles, dongleID);
      gauge := gauge[dongleID := (if dongleID in gauge then gauge[dongleID] else 0) - 1];
      dongles := dongles - {dongleID};
      state := AfterDisconnect(s, h, true);
      assert state.sessions == s.sessions && state.dongles == s.dongles - {dongleID};
      assert dongles.Keys == state.dongles.Keys;
    }

    /** OnDisconnect of handler h. */
    method OnDisconnect(dongleID: string, draining: bool, ghost h: nat)
      requires Valid() && MapOpen(state)
      requires h < |state.handlers| && state.handlers[h].phase.Connected? && state.handlers[h].dongleID == dongleID
      modifies this, built
      ensures Valid() && built == old(built) && state == AfterDisconnect(old(state), h, draining)
    {
      ghost var s := state;
      var dongle := TakeOut(dongleID, h);
      if dongle.None? || draining {
        return;
      }
      assert dongle.value.Abs() == s.sessions[s.dongles[dongleID]];
      dongle.value.Close();
      state := AfterDisconnect(s, h, false);
    }
  }
}
