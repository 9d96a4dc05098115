/** The remote path of RPCWebsocket.Call in internal/server/websocket/rpc.go: the request loop over
    NATS, driven by whatever each request comes back with. */
module NatsRetry {
  import opened Prelude
  import opened ApiModels

  /** What one request comes back with. An empty reply is a NAK. */
  datatype Outcome =
    | Timeout
    | NoResponders
    | OtherError(code: int)
    | Nak
    | Garbled
    | Reply(response: Response)

  datatype CallError = NotConnected | MarshalFailed | TimedOut | NobodyThere | Other(code: int) | UnmarshalFailed

  /** GaveUp carries the error variable the code returns, None for a nil error. */
  datatype Verdict =
    | Replied(response: Response)
    | Failed(error: CallError)
    | GaveUp(lastError: Option<CallError>)
    | StillRetrying

  const ATTEMPTS: nat := 4

  predicate Retryable(o: Outcome) { o.Timeout? || o.NoResponders? }

  function ErrorOf(o: Outcome): Option<CallError> {
    match o
    case Timeout => Some(TimedOut)
    case NoResponders => Some(NobodyThere)
    case OtherError(c) => Some(Other(c))
    case Garbled => Some(UnmarshalFailed)
    case Nak => None
    case Reply(_) => None
  }

  function Decide(o: Outcome): Verdict
    requires !Retryable(o) && !o.Nak?
  {
    if o.Reply? then Replied(o.response) else Failed(ErrorOf(o).value)
  }

  function WithoutNaks(os: seq<Outcome>): seq<Outcome> {
    if os == [] then []
    else (if os[0].Nak? then [] else [os[0]]) + WithoutNaks(os[1..])
  }

  function Count(os: seq<Outcome>, p: Outcome -> bool): nat {
    if os == [] then 0 else Count(os[..|os| - 1], p) + if p(os[|os| - 1]) then 1 else 0
  }

  predicate IsNak(o: Outcome) { o.Nak? }

  /** The meaning of the loop on a list of outcomes without NAKs: the first of the first four that is
      not retryable decides; four retryable ones end it with the fourth's error. */
  ghost function Resolve(os: seq<Outcome>): Verdict {
    if exists k :: 0 <= k < ATTEMPTS && k < |os| && FirstDecisive(os, k) then
      var k :| 0 <= k < ATTEMPTS && k < |os| && FirstDecisive(os, k);
      DecisiveIsUnique(os, k);
      if os[k].Nak? then StillRetrying else Decide(os[k])
    else if |os| >= ATTEMPTS then GaveUp(ErrorOf(os[ATTEMPTS - 1]))
    else StillRetrying
  }

  predicate FirstDecisive(os: seq<Outcome>, k: int)
    requires 0 <= k < |os|
  {
    !Retryable(os[k]) && forall j | 0 <= j < k :: Retryable(os[j])
  }

  lemma DecisiveIsUnique(os: seq<Outcome>, k: int)
    requires 0 <= k < |os| && FirstDecisive(os, k)
    ensures forall j | 0 <= j < |os| && FirstDecisive(os, j) :: j == k
  {
  }

  lemma {:induction false} WithoutNaksSnoc(os: seq<Outcome>, o: Outcome)
    ensures WithoutNaks(os + [o]) == WithoutNaks(os) + if o.Nak? then [] else [o]
  {
    if os == [] {
      assert os + [o] == [o] && [o][1..] == [];
    } else {
      assert (os + [o])[0] == os[0] && (os + [o])[1..] == os[1..] + [o];
      WithoutNaksSnoc(os[1..], o);
      var head := if os[0].Nak? then [] else [os[0]];
      assert WithoutNaks(os + [o]) == head + WithoutNaks(os[1..] + [o]);
    }
  }

  /** NAKs left out of a longer list extend NAKs left out of a prefix. */
  lemma {:induction false} WithoutNaksPrefix(os: seq<Outcome>, i: nat)
    requires i <= |os|
    ensures |WithoutNaks(os[..i])| <= |WithoutNaks(os)|
    ensures WithoutNaks(os)[..|WithoutNaks(os[..i])|] == WithoutNaks(os[..i])
  {
    if i > 0 {
      assert os[..i][1..] == os[1..][..i - 1];
      WithoutNaksPrefix(os[1..], i - 1);
    }
  }

  ghost predicate AllFailed(os: seq<Outcome>) { forall k | 0 <= k < |os| :: Retryable(os[k]) }

  /** How the meaning of the whole list shows in a prefix: a fourth failure, a first decisive outcome,
      or nothing yet. */
  lemma PrefixGivesUp(outcomes: seq<Outcome>, i: nat)
    requires i <= |outcomes| && AllFailed(WithoutNaks(outcomes[..i])) && |WithoutNaks(outcomes[..i])| == ATTEMPTS
    ensures Resolve(WithoutNaks(outcomes)) == GaveUp(ErrorOf(WithoutNaks(outcomes[..i])[ATTEMPTS - 1]))
  {
    WithoutNaksPrefix(outcomes, i);
    var w, os := WithoutNaks(outcomes[..i]), WithoutNaks(outcomes);
    assert forall k | 0 <= k < ATTEMPTS :: os[k] == w[k];
  }

  lemma PrefixDecides(outcomes: seq<Outcome>, i: nat)
    requires i < |outcomes| && AllFailed(WithoutNaks(outcomes[..i])) && |WithoutNaks(outcomes[..i])| < ATTEMPTS
    requires !Retryable(outcomes[i]) && !outcomes[i].Nak?
    ensures Resolve(WithoutNaks(outcomes)) == Decide(outcomes[i])
  {
    var w, os := WithoutNaks(outcomes[..i]), WithoutNaks(outcomes);
    assert outcomes[..i + 1] == outcomes[..i] + [outcomes[i]];
    WithoutNaksSnoc(outcomes[..i], outcomes[i]);
    WithoutNaksPrefix(outcomes, i + 1);
    assert os[..|w| + 1] == w + [outcomes[i]];
    assert os[|w|] == os[..|w| + 1][|w|];
    assert forall k | 0 <= k < |w| :: os[k] == os[..|w| + 1][k];
    assert FirstDecisive(os, |w|);
    DecisiveIsUnique(os, |w|);
  }

  /** One more outcome that does not end the loop. */
  lemma PrefixGrows(outcomes: seq<Outcome>, i: nat)
    requires i < |outcomes| && AllFailed(WithoutNaks(outcomes[..i])) && (Retryable(outcomes[i]) || outcomes[i].Nak?)
    ensures var w, w' := WithoutNaks(outcomes[..i]), WithoutNaks(outcomes[..i + 1]);
            AllFailed(w') && w' == w + if outcomes[i].Nak? then [] else [outcomes[i]]
  {
    assert outcomes[..i + 1] == outcomes[..i] + [outcomes[i]];
    WithoutNaksSnoc(outcomes[..i], outcomes[i]);
  }

  /** The request loop. It returns StillRetrying when the outcomes run out before the loop ends, as
      it can with NAKs for ever. At its head retry counts the failures so far and no NAK. */
  method RequestLoop(outcomes: seq<Outcome>) returns (verdict: Verdict, requests: nat)
    ensures verdict == Resolve(WithoutNaks(outcomes))
    ensures requests <= |outcomes| && requests <= ATTEMPTS + Count(outcomes[..requests], IsNak)
    ensures verdict.StillRetrying? ==> requests == |outcomes|
  {
    var retry: int := 0;
    var err: Option<CallError> := None;
    requests := 0;
    while true
      invariant 0 <= requests <= |outcomes|
      invariant 0 <= retry <= ATTEMPTS
      invariant requests == retry + Count(outcomes[..requests], IsNak)
      invariant retry == |WithoutNaks(outcomes[..requests])| && AllFailed(WithoutNaks(outcomes[..requests]))
      invariant retry == ATTEMPTS ==> err == ErrorOf(WithoutNaks(outcomes[..requests])[ATTEMPTS - 1])
      decreases |outcomes| - requests
    {
      if retry > 3 {
        PrefixGivesUp(outcomes, requests);
        return GaveUp(err), requests;
      }
      if requests == |outcomes| {
        assert outcomes[..requests] == outcomes;
        return StillRetrying, requests;
      }
      var o := outcomes[requests];
      assert outcomes[..requests + 1][..requests] == outcomes[..requests];
      retry := retry + 1;
      requests := requests + 1;
      err := ErrorOf(o);
      if Retryable(o) {
        PrefixGrows(outcomes, requests - 1);
        continue;
      }
      if o.Nak? {
        PrefixGrows(outcomes, requests - 1);
        retry := retry - 1;
        continue;
      }
      PrefixDecides(outcomes, requests - 1);
      return Decide(o), requests;
    }
  }

  /** The whole remote path: no NATS connection and a call that cannot be marshalled fail at once. */
  method CallRemote(natsConnected: bool, marshals: bool, outcomes: seq<Outcome>) returns (verdict: Verdict)
    ensures verdict == if !natsConnected then Failed(NotConnected)
                       else if !marshals then Failed(MarshalFailed)
                       else Resolve(WithoutNaks(outcomes))
  {
    if !natsConnected {
      return Failed(NotConnected);
    }
    if !marshals {
      return Failed(MarshalFailed);
    }
    var requests;
    verdict, requests := RequestLoop(outcomes);
  }

  lemma {:induction false} NoNaksLeft(os: seq<Outcome>)
    ensures forall k | 0 <= k < |WithoutNaks(os)| :: !WithoutNaks(os)[k].Nak?
  {
    if os != [] {
      NoNaksLeft(os[1..]);
    }
  }

  lemma {:induction false} WithoutNaksMembers(os: seq<Outcome>)
    ensures forall k | 0 <= k < |WithoutNaks(os)| :: WithoutNaks(os)[k] in os
  {
    if os != [] {
      WithoutNaksMembers(os[1..]);
    }
  }

  /** The loop gives up exactly when the first four outcomes that are not NAKs are timeouts or
      missing responders, and then always with a non-nil error, that of the fourth. */
  lemma GivesUpIffFourFailures(outcomes: seq<Outcome>)
    ensures var os, v := WithoutNaks(outcomes), Resolve(WithoutNaks(outcomes));
            && (v.GaveUp? <==> |os| >= 4 && forall k | 0 <= k < 4 :: os[k].Timeout? || os[k].NoResponders?)
            && (v.GaveUp? ==> v.lastError == Some(if os[3].Timeout? then TimedOut else NobodyThere))
  {
    NoNaksLeft(outcomes);
    var os := WithoutNaks(outcomes);
    if |os| >= ATTEMPTS && !(forall k | 0 <= k < ATTEMPTS :: Retryable(os[k])) {
      var k := FindDecisive(os, ATTEMPTS);
      assert FirstDecisive(os, k);
    }
  }

  lemma {:induction false} FindDecisive(os: seq<Outcome>, n: nat) returns (k: nat)
    requires n <= |os| && exists j :: 0 <= j < n && !Retryable(os[j])
    ensures k < n && FirstDecisive(os, k)
  {
    k := 0;
    while Retryable(os[k])
      invariant k < n && forall j | 0 <= j < k :: Retryable(os[j])
      invariant exists j :: k <= j < n && !Retryable(os[j])
      decreases n - k
    {
      k := k + 1;
    }
  }

  /** The first k requests timed out or met nobody. */
  predicate AllUnanswered(os: seq<Outcome>, k: int) {
    0 <= k <= |os| && forall j | 0 <= j < k :: os[j].Timeout? || os[j].NoResponders?
  }

  /** Any other error and an unreadable reply fail the call at once, each with its own error, under the
      same condition. */
  lemma FailsIffFirstDecisive(outcomes: seq<Outcome>, e: CallError)
    ensures Resolve(WithoutNaks(outcomes)) == Failed(e) <==>
            exists k :: 0 <= k < |WithoutNaks(outcomes)| && k < 4 && AllUnanswered(WithoutNaks(outcomes), k)
                        && ((WithoutNaks(outcomes)[k].Garbled? && e == UnmarshalFailed)
                            || (WithoutNaks(outcomes)[k].OtherError? && e == Other(WithoutNaks(outcomes)[k].code)))
  {
    NoNaksLeft(outcomes);
    var os := WithoutNaks(outcomes);
    if k :| 0 <= k < |os| && k < 4 && AllUnanswered(os, k) && (os[k].Garbled? || os[k].OtherError?) {
      assert FirstDecisive(os, k);
      DecisiveIsUnique(os, k);
    }
  }

  /** A reply is returned exactly when it is the first decisive outcome and fewer than four requests
      failed before it. */
  lemma RepliesIffFirstDecisive(outcomes: seq<Outcome>, r: Response)
    ensures Resolve(WithoutNaks(outcomes)) == Replied(r) <==>
            exists k :: 0 <= k < |WithoutNaks(outcomes)| && k < 4
                        && AllUnanswered(WithoutNaks(outcomes), k) && WithoutNaks(outcomes)[k] == Reply(r)
  {
    NoNaksLeft(outcomes);
    var os := WithoutNaks(outcomes);
    forall k | 0 <= k < |os| ensures FirstDecisive(os, k) <==> !Retryable(os[k]) && AllUnanswered(os, k) {
    }
    if k :| 0 <= k < |os| && k < ATTEMPTS && FirstDecisive(os, k) {
      assert AllUnanswered(os, k);
      DecisiveIsUnique(os, k);
    }
  }
}
