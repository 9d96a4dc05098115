/** The one-shot dispatch by key of internal/utils/channel_watcher.go. */
module ChannelWatchers {
  import opened Prelude

  /** A subscriber called with a message. */
  datatype Delivery<T> = Delivery(subscriber: nat, message: T)

  /** LoadAndDelete for one message, then the call. */
  function DispatchOne<T>(subs: map<string, nat>, key: T -> string, m: T): (map<string, nat>, seq<Delivery<T>>) {
    if key(m) in subs then (subs - {key(m)}, [Delivery(subs[key(m)], m)]) else (subs, [])
  }

  function DispatchAll<T>(subs: map<string, nat>, key: T -> string, ms: seq<T>): (map<string, nat>, seq<Delivery<T>>)
    decreases |ms|
  {
    if ms == [] then (subs, [])
    else
      var n := |ms| - 1;
      var (before, log) := DispatchAll(subs, key, ms[..n]);
      var (after, more) := DispatchOne(before, key, ms[n]);
      (after, log + more)
  }

  class ChannelWatcher<T> {
    const key: T -> string
    var subscribers: map<string, nat>

    constructor (key: T -> string)
      ensures subscribers == map[] && this.key == key
    {
      this.key, subscribers := key, map[];
    }

    method Subscribe(id: string, subscriber: nat)
      modifies this
      ensures subscribers == old(subscribers)[id := subscriber]
    {
      subscribers := subscribers[id := subscriber];
    }

    /** WatchChannel, on the messages received until the channel is closed. */
    method WatchChannel(messages: seq<T>) returns (log: seq<Delivery<T>>)
      modifies this
      ensures (subscribers, log) == DispatchAll(old(subscribers), key, messages)
    {
      log := [];
      var i := 0;
      while i < |messages|
        invariant 0 <= i <= |messages|
        invariant (subscribers, log) == DispatchAll(old(subscribers), key, messages[..i])
      {
        var response := messages[i];
        assert messages[..i + 1][..i] == messages[..i];
        assert log + [] == log;
        if key(response) in subscribers {
          var subscriber := subscribers[key(response)];
          subscribers := subscribers - {key(response)};
          log := log + [Delivery(subscriber, response)];
        }
        i := i + 1;
      }
      assert messages[..i] == messages;
    }
  }

  /** Whether a message carries a key that no message before it carried. */
  predicate Fresh<T>(key: T -> string, before: seq<T>, m: T) {
    forall j | 0 <= j < |before| :: key(before[j]) != key(m)
  }

  /** The deliveries defined without a table: a message is delivered exactly when its key was
      subscribed at the start and it is the first message with that key. */
  function FirstOfEachKey<T>(subs: map<string, nat>, key: T -> string, ms: seq<T>): seq<Delivery<T>>
    decreases |ms|
  {
    if ms == [] then []
    else
      var n := |ms| - 1;
      FirstOfEachKey(subs, key, ms[..n]) +
      if key(ms[n]) in subs && Fresh(key, ms[..n], ms[n]) then [Delivery(subs[key(ms[n])], ms[n])] else []
  }

  /** A subscriber is still there exactly when no message with its key came. */
  lemma {:induction false} RemainingSubscribers<T>(subs: map<string, nat>, key: T -> string, ms: seq<T>, id: string)
    ensures var after := DispatchAll(subs, key, ms).0;
            && (id in after <==> id in subs && forall i | 0 <= i < |ms| :: key(ms[i]) != id)
            && (id in after ==> after[id] == subs[id])
    decreases |ms|
  {
    if ms != [] {
      var n := |ms| - 1;
      RemainingSubscribers(subs, key, ms[..n], id);
      if i :| 0 <= i < n && key(ms[i]) == id {
        assert key(ms[..n][i]) == id;
      } else {
        assert forall i | 0 <= i < n :: key(ms[..n][i]) != id;
      }
    }
  }

  /** The watcher delivers exactly the first message of each subscribed key, to the subscriber of that
      key, in the order of arrival. */
  lemma {:induction false} FirstMessageWins<T>(subs: map<string, nat>, key: T -> string, ms: seq<T>)
    ensures DispatchAll(subs, key, ms).1 == FirstOfEachKey(subs, key, ms)
    decreases |ms|
  {
    if ms != [] {
      var n := |ms| - 1;
      FirstMessageWins(subs, key, ms[..n]);
      RemainingSubscribers(subs, key, ms[..n], key(ms[n]));
    }
  }

  /** The first message with a key, if there is one. */
  function FirstWith<T>(key: T -> string, ms: seq<T>, id: string): Option<T>
    decreases |ms|
  {
    if ms == [] then None
    else
      var before := FirstWith(key, ms[..|ms| - 1], id);
      if before.None? && key(ms[|ms| - 1]) == id then Some(ms[|ms| - 1]) else before
  }

  /** The deliveries of messages with a key, and of all other messages. */
  function Only<T>(key: T -> string, log: seq<Delivery<T>>, id: string): seq<Delivery<T>>
    decreases |log|
  {
    if log == [] then []
    else
      var n := |log| - 1;
      Only(key, log[..n], id) + if key(log[n].message) == id then [log[n]] else []
  }

  function Without<T>(key: T -> string, log: seq<Delivery<T>>, id: string): seq<Delivery<T>>
    decreases |log|
  {
    if log == [] then []
    else
      var n := |log| - 1;
      Without(key, log[..n], id) + if key(log[n].message) != id then [log[n]] else []
  }

  lemma Appended<T>(key: T -> string, log: seq<Delivery<T>>, d: Delivery<T>, id: string)
    ensures Only(key, log + [d], id) == Only(key, log, id) + if key(d.message) == id then [d] else []
    ensures Without(key, log + [d], id) == Without(key, log, id) + if key(d.message) != id then [d] else []
  {
    assert (log + [d])[..|log|] == log;
  }

  lemma {:induction false} FirstWithIsFirst<T>(key: T -> string, ms: seq<T>, id: string)
    ensures FirstWith(key, ms, id).None? <==> forall i | 0 <= i < |ms| :: key(ms[i]) != id
    decreases |ms|
  {
    if ms != [] {
      var n := |ms| - 1;
      FirstWithIsFirst(key, ms[..n], id);
      assert forall i | 0 <= i < n :: ms[..n][i] == ms[i];
    }
  }

  /** What a subscription is for: whatever subscriptions there were, the new subscriber is called exactly
      once if a message with its id comes, with the first such message, no other subscriber is called
      for that id, and the deliveries under all other ids are as if it had not been made. */
  lemma {:induction false} SubscribeThenWatch<T>(
    subs: map<string, nat>, key: T -> string, id: string, subscriber: nat, ms: seq<T>)
    ensures var log := DispatchAll(subs[id := subscriber], key, ms).1;
            var first := FirstWith(key, ms, id);
            && Only(key, log, id) == (if first.Some? then [Delivery(subscriber, first.value)] else [])
            && Without(key, log, id) == Without(key, DispatchAll(subs, key, ms).1, id)
    decreases |ms|
  {
    if ms != [] {
      var n := |ms| - 1;
      var init, m := ms[..n], ms[n];
      SubscribeThenWatch(subs, key, id, subscriber, init);
      RemainingSubscribers(subs[id := subscriber], key, init, key(m));
      RemainingSubscribers(subs, key, init, key(m));
      FirstWithIsFirst(key, init, id);
      LogGrows(subs[id := subscriber], key, ms, id);
      LogGrows(subs, key, ms, id);
    }
  }

  /** What the last message adds to the deliveries under an id and under the others. */
  lemma LogGrows<T>(subs: map<string, nat>, key: T -> string, ms: seq<T>, id: string)
    requires ms != []
    ensures var n := |ms| - 1;
            var (before, log), all := DispatchAll(subs, key, ms[..n]), DispatchAll(subs, key, ms).1;
            var added := if key(ms[n]) in before then [Delivery(before[key(ms[n])], ms[n])] else [];
            && Only(key, all, id) == Only(key, log, id) + (if key(ms[n]) == id then added else [])
            && Without(key, all, id) == Without(key, log, id) + (if key(ms[n]) != id then added else [])
  {
    var n := |ms| - 1;
    var (before, log) := DispatchAll(subs, key, ms[..n]);
    if key(ms[n]) in before {
      Appended(key, log, Delivery(before[key(ms[n])], ms[n]), id);
    } else {
      assert log + [] == log;
    }
  }
}
