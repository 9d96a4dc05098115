/** The LogQueue object of internal/logparser/queue.go: the body of the dispatcher's loop, one full
    rotation of the queue, and the work of one worker, proved against the transition system. */
module LogQueues {
  import opened Prelude
  import opened MachineInts
  import opened Decoder
  import opened Routes
  import opened Dispatch
  import opened PromptDispatch
  import opened Text

  // ----- What a rotation does, on values -----

  function Dongles(ws: seq<Work>): set<string> { set w | w in ws :: w.dongleID }

  /** The works started and the works kept when the queue is gone through once. */
  function Pass(queue: seq<Work>, active: set<string>, slots: nat): (r: (seq<Work>, seq<Work>))
    decreases |queue|
  {
    if queue == [] then ([], [])
    else
      var w := queue[0];
      if w.dongleID in active || slots == 0 then
        var r := Pass(queue[1..], active, slots);
        (r.0, [w] + r.1)
      else
        var r := Pass(queue[1..], active + {w.dongleID}, slots - 1);
        ([w] + r.0, r.1)
  }

  function Min(a: nat, b: nat): nat { if a < b then a else b }

  /** short is long with some positions left out, the order unchanged. */
  ghost predicate Subsequence<T>(short: seq<T>, long: seq<T>)
    decreases |long|
  {
    if short == [] then true
    else if long == [] then false
    else (short[0] == long[0] && Subsequence(short[1..], long[1..])) || Subsequence(short, long[1..])
  }

  lemma DonglesCons(queue: seq<Work>)
    requires queue != []
    ensures Dongles(queue) == {queue[0].dongleID} + Dongles(queue[1..])
  {
    assert queue == [queue[0]] + queue[1..];
  }

  lemma InactiveCons(queue: seq<Work>, active: set<string>)
    requires queue != []
    ensures var d, rest := queue[0].dongleID, Dongles(queue[1..]);
            |Dongles(queue) - active| == if d in active then |rest - active| else |rest - (active + {d})| + 1
  {
    DonglesCons(queue);
    var d, rest := queue[0].dongleID, Dongles(queue[1..]);
    if d in active {
      assert Dongles(queue) - active == rest - active;
    } else {
      assert Dongles(queue) - active == (rest - (active + {d})) + {d};
    }
  }

  /** A rotation starts as many works as there are free slots and distinct inactive dongles queued. */
  lemma {:induction false} PassStartsAll(queue: seq<Work>, active: set<string>, slots: nat)
    ensures |Pass(queue, active, slots).0| == Min(slots, |Dongles(queue) - active|)
    decreases |queue|
  {
    if queue != [] {
      InactiveCons(queue, active);
      var d := queue[0].dongleID;
      if d in active || slots == 0 {
        PassStartsAll(queue[1..], active, slots);
      } else {
        PassStartsAll(queue[1..], active + {d}, slots - 1);
      }
    }
  }

  lemma ConsCounts(w: Work, ws: seq<Work>, others: multiset<Work>)
    ensures multiset([w] + ws) == multiset{w} + multiset(ws)
    ensures multiset([w] + ws) + others == multiset{w} + (multiset(ws) + others)
    ensures others + multiset([w] + ws) == multiset{w} + (others + multiset(ws))
  {
  }

  /** Started and kept works make up the queue. */
  lemma {:induction false} PassConserves(queue: seq<Work>, active: set<string>, slots: nat)
    ensures var r := Pass(queue, active, slots); multiset(r.0) + multiset(r.1) == multiset(queue)
    decreases |queue|
  {
    if queue != [] {
      var w, rest := queue[0], queue[1..];
      assert queue == [w] + rest;
      ConsCounts(w, rest, multiset{});
      if w.dongleID in active || slots == 0 {
        PassConserves(rest, active, slots);
        var r := Pass(rest, active, slots);
        ConsCounts(w, r.1, multiset(r.0));
      } else {
        PassConserves(rest, active + {w.dongleID}, slots - 1);
        var r := Pass(rest, active + {w.dongleID}, slots - 1);
        ConsCounts(w, r.0, multiset(r.1));
      }
    }
  }

  /** Both lists keep the original order. */
  lemma {:induction false} PassKeepsOrder(queue: seq<Work>, active: set<string>, slots: nat)
    ensures var (started, kept) := Pass(queue, active, slots);
            Subsequence(started, queue) && Subsequence(kept, queue)
    decreases |queue|
  {
    if queue != [] {
      var w, rest := queue[0], queue[1..];
      if w.dongleID in active || slots == 0 {
        PassKeepsOrder(rest, active, slots);
        assert ([w] + Pass(rest, active, slots).1)[1..] == Pass(rest, active, slots).1;
      } else {
        PassKeepsOrder(rest, active + {w.dongleID}, slots - 1);
        var started := Pass(rest, active + {w.dongleID}, slots - 1).0;
        assert ([w] + started)[1..] == started;
      }
    }
  }

  /** The started dongles are distinct and were inactive, and the rotation ends with no free slot or
      with every queued dongle active. */
  lemma {:induction false} PassIsFair(queue: seq<Work>, active: set<string>, slots: nat)
    ensures var (started, kept) := Pass(queue, active, slots);
            && (forall i, j | 0 <= i < j < |started| :: started[i].dongleID != started[j].dongleID)
            && (forall i | 0 <= i < |started| :: started[i].dongleID !in active)
            && |started| <= slots
            && (|started| == slots || Dongles(queue) <= active + Dongles(started))
    decreases |queue|
  {
    if queue != [] {
      DonglesCons(queue);
      var w, rest := queue[0], queue[1..];
      if w.dongleID in active || slots == 0 {
        PassIsFair(rest, active, slots);
      } else {
        PassIsFair(rest, active + {w.dongleID}, slots - 1);
        var started := Pass(rest, active + {w.dongleID}, slots - 1).0;
        FreshFirst(w, started, active);
        DonglesCons([w] + started);
        assert ([w] + started)[1..] == started;
      }
    }
  }

  lemma FreshFirst(w: Work, started: seq<Work>, active: set<string>)
    requires w.dongleID !in active
    requires forall i, j | 0 <= i < j < |started| :: started[i].dongleID != started[j].dongleID
    requires forall i | 0 <= i < |started| :: started[i].dongleID !in active + {w.dongleID}
    ensures var all := [w] + started;
            && (forall i, j | 0 <= i < j < |all| :: all[i].dongleID != all[j].dongleID)
            && (forall i | 0 <= i < |all| :: all[i].dongleID !in active)
  {
  }

  // ----- One turn of the loop and one rotation, on states -----

  /** Every spawned worker has stored itself. */
  ghost predicate Settled(s: State) { forall i: nat | i < |s.workers| :: !s.workers[i].phase.Spawned? }

  predicate Startable(c: Config, s: State, w: Work) {
    w.dongleID !in s.activeJobs && WrapUint64(s.count) < c.parallelLogParsers
  }

  predicate CountInRange(c: Config, s: State) { 0 <= s.count <= c.parallelLogParsers }

  /** The state after one turn of the dispatcher's loop, the spawned goroutine's Store included. */
  function Dispatched(c: Config, s: State): State
    requires s.queue != []
  {
    var w := s.queue[0];
    if Startable(c, s, w) then
      s.(queue := s.queue[1..], count := s.count + 1, activeJobs := s.activeJobs[w.dongleID := |s.workers|],
         workers := s.workers + [Worker(w, Stored, None)])
    else
      s.(queue := s.queue[1..] + [w])
  }

  lemma DispatchedIsGood(c: Config, s: State)
    requires CountInRange(c, s) && Settled(s) && s.queue != []
    ensures CountInRange(c, Dispatched(c, s)) && Settled(Dispatched(c, s)) && Dispatched(c, s).hand == s.hand
  {
    WrapIsIdentityInRange(s.count);
  }

  /** A turn is a prompt run of the transition system. */
  lemma DispatchedRun(c: Config, s: State) returns (steps: seq<Step>)
    requires CountInRange(c, s) && Settled(s) && s.hand.Idle? && 0 < |s.queue| <= QUEUE_DEPTH
    ensures PromptRun(c, s, steps) && Exec(c, s, steps) == Some(Dispatched(c, s))
  {
    var w := s.queue[0];
    var t: State;
    WrapIsIdentityInRange(s.count);
    t, steps := Extend(c, s, [], s, Receive);
    assert t == s.(hand := Received(w), queue := s.queue[1..]);
    if Startable(c, s, w) {
      t, steps := AdmitHand(c, s, steps, t);
      t, steps := Extend(c, s, steps, t, Store(|s.workers|));
      assert t.workers == s.workers + [Worker(w, Stored, None)];
    } else {
      t, steps := RefuseHand(c, s, steps, t);
      assert t == s.(hand := Idle, queue := s.queue[1..] + [w]);
    }
    OneLoadIsPrompt(c, s, steps);
  }

  lemma RefuseHand(c: Config, s: State, steps: seq<Step>, t: State) returns (u: State, more: seq<Step>)
    requires Exec(c, s, steps) == Some(t) && t.hand.Received? && !Startable(c, t, t.hand.work)
    requires |t.queue| < QUEUE_DEPTH
    ensures Exec(c, s, more) == Some(u) && u == t.(hand := Idle, queue := t.queue + [t.hand.work])
    ensures more == steps + [Load, Requeue] || more == steps + [Load, Compare, Requeue]
  {
    u, more := Extend(c, s, steps, t, Load);
    if t.hand.work.dongleID !in t.activeJobs {
      u, more := Extend(c, s, more, u, Compare);
    }
    u, more := Extend(c, s, more, u, Requeue);
  }

  /** n turns of the loop. */
  function Turns(c: Config, s: State, n: nat): State
    requires n <= |s.queue|
    decreases n
  {
    if n == 0 then s else Turns(c, Dispatched(c, s), n - 1)
  }

  lemma {:induction false} TurnsRun(c: Config, s: State, n: nat) returns (steps: seq<Step>)
    requires CountInRange(c, s) && Settled(s) && s.hand.Idle? && n <= |s.queue| <= QUEUE_DEPTH
    ensures PromptRun(c, s, steps) && Exec(c, s, steps) == Some(Turns(c, s, n))
    decreases n
  {
    if n == 0 {
      steps := [];
    } else {
      var u := Dispatched(c, s);
      var first := DispatchedRun(c, s);
      DispatchedIsGood(c, s);
      var rest := TurnsRun(c, u, n - 1);
      PromptConcat(c, s, first, u, rest);
      steps := first + rest;
    }
  }

  lemma DispatchedWorks(c: Config, s: State)
    requires s.queue != []
    ensures Works(Dispatched(c, s).workers) ==
            Works(s.workers) + if Startable(c, s, s.queue[0]) then [s.queue[0]] else []
  {
    assert Works(s.workers) + [] == Works(s.workers);
  }

  /** From s to t the lists of a pass have been carried out: the started works run, the kept ones are
      queued behind rest. */
  ghost predicate CarriedOut(s: State, t: State, rest: seq<Work>, started: seq<Work>, kept: seq<Work>) {
    && t.queue == rest + kept
    && Works(t.workers) == Works(s.workers) + started
    && t.activeJobs.Keys == s.activeJobs.Keys + Dongles(started)
    && t.count == s.count + |started|
  }

  lemma KeptTurn(c: Config, s: State, t: State, started: seq<Work>, kept: seq<Work>, n: nat)
    requires 0 < n <= |s.queue| && !Startable(c, s, s.queue[0])
    requires CarriedOut(Dispatched(c, s), t, Dispatched(c, s).queue[n - 1..], started, kept)
    ensures CarriedOut(s, t, s.queue[n..], started, [s.queue[0]] + kept)
  {
    assert Dispatched(c, s).queue[n - 1..] + kept == s.queue[n..] + ([s.queue[0]] + kept);
  }

  lemma StartedTurn(c: Config, s: State, t: State, started: seq<Work>, kept: seq<Work>, n: nat)
    requires 0 < n <= |s.queue| && Startable(c, s, s.queue[0])
    requires CarriedOut(Dispatched(c, s), t, Dispatched(c, s).queue[n - 1..], started, kept)
    ensures CarriedOut(s, t, s.queue[n..], [s.queue[0]] + started, kept)
  {
    var u, w := Dispatched(c, s), s.queue[0];
    DispatchedWorks(c, s);
    DonglesCons([w] + started);
    assert ([w] + started)[1..] == started;
    assert u.queue[n - 1..] == s.queue[n..] && u.activeJobs.Keys == s.activeJobs.Keys + {w.dongleID};
    assert (Works(s.workers) + [w]) + started == Works(s.workers) + ([w] + started);
  }

  /** The pass over the first n works queued. */
  function PassOf(c: Config, s: State, n: nat): (seq<Work>, seq<Work>)
    requires n <= |s.queue| && CountInRange(c, s)
  {
    Pass(s.queue[..n], s.activeJobs.Keys, c.parallelLogParsers - s.count)
  }

  /** It begins with the work at the head, and goes on as the pass after one turn. */
  lemma FirstOfPass(c: Config, s: State, n: nat)
    requires 0 < n <= |s.queue| && CountInRange(c, s)
    ensures var u, w := Dispatched(c, s), s.queue[0];
            && CountInRange(c, u)
            && var r := PassOf(c, u, n - 1);
               PassOf(c, s, n) == if Startable(c, s, w) then ([w] + r.0, r.1) else (r.0, [w] + r.1)
  {
    WrapIsIdentityInRange(s.count);
    assert s.queue[..n][1..] == Dispatched(c, s).queue[..n - 1];
    assert Startable(c, s, s.queue[0]) ==>
             Dispatched(c, s).activeJobs.Keys == s.activeJobs.Keys + {s.queue[0].dongleID};
  }

  /** n turns carry out the pass over the first n works. */
  lemma {:induction false} TurnsArePass(c: Config, s: State, n: nat)
    requires n <= |s.queue| && CountInRange(c, s)
    ensures CarriedOut(s, Turns(c, s, n), s.queue[n..], PassOf(c, s, n).0, PassOf(c, s, n).1)
    decreases n
  {
    if n > 0 {
      FirstOfPass(c, s, n);
      var u := Dispatched(c, s);
      TurnsArePass(c, u, n - 1);
      TurnOfPass(c, s, Turns(c, s, n), n, PassOf(c, u, n - 1));
    }
  }

  lemma TurnOfPass(c: Config, s: State, t: State, n: nat, r: (seq<Work>, seq<Work>))
    requires 0 < n <= |s.queue|
    requires CarriedOut(Dispatched(c, s), t, Dispatched(c, s).queue[n - 1..], r.0, r.1)
    ensures var w := s.queue[0];
            var q := if Startable(c, s, w) then ([w] + r.0, r.1) else (r.0, [w] + r.1);
            CarriedOut(s, t, s.queue[n..], q.0, q.1)
  {
    if Startable(c, s, s.queue[0]) {
      StartedTurn(c, s, t, r.0, r.1, n);
    } else {
      KeptTurn(c, s, t, r.0, r.1, n);
    }
  }

  /** Work conservation: the pass starts exactly min(free slots, distinct inactive queued dongles)
      works, of distinct inactive dongles; both lists keep the original order and together make up
      the queue; and it ends with no free slot or with every queued dongle active. */
  ghost predicate WorkConserving(
    queue: seq<Work>, active: set<string>, slots: nat, started: seq<Work>, kept: seq<Work>)
  {
    && |started| == Min(slots, |Dongles(queue) - active|)
    && multiset(started) + multiset(kept) == multiset(queue)
    && Subsequence(started, queue) && Subsequence(kept, queue)
    && (forall i, j | 0 <= i < j < |started| :: started[i].dongleID != started[j].dongleID)
    && (forall i | 0 <= i < |started| :: started[i].dongleID !in active)
    && (|started| == slots || Dongles(queue) <= active + Dongles(started))
  }

  lemma PassIsWorkConserving(queue: seq<Work>, active: set<string>, slots: nat)
    ensures var r := Pass(queue, active, slots); WorkConserving(queue, active, slots, r.0, r.1)
  {
    PassStartsAll(queue, active, slots);
    PassConserves(queue, active, slots);
    PassKeepsOrder(queue, active, slots);
    PassIsFair(queue, active, slots);
  }

  /** A rotation of the queue, when nothing is added and no worker completes, carries out the pass
      over the whole queue: it starts the first list and leaves the second one queued. */
  lemma RotationIsPass(c: Config, s: State)
    requires CountInRange(c, s)
    ensures var t, r := Turns(c, s, |s.queue|), Pass(s.queue, s.activeJobs.Keys, c.parallelLogParsers - s.count);
            && t.queue == r.1
            && Works(t.workers) == Works(s.workers) + r.0
            && t.activeJobs.Keys == s.activeJobs.Keys + Dongles(r.0)
            && t.count == s.count + |r.0|
  {
    var n := |s.queue|;
    var r := Pass(s.queue, s.activeJobs.Keys, c.parallelLogParsers - s.count);
    TurnsArePass(c, s, n);
    assert s.queue[..n] == s.queue;
    assert s.queue[n..] + r.1 == r.1;
  }

  /** A rotation is a prompt run of the transition system. */
  lemma RotationRun(c: Config, s: State) returns (steps: seq<Step>)
    requires CountInRange(c, s) && Settled(s) && s.hand.Idle? && |s.queue| <= QUEUE_DEPTH
    ensures PromptRun(c, s, steps) && Exec(c, s, steps) == Some(Turns(c, s, |s.queue|))
  {
    steps := TurnsRun(c, s, |s.queue|);
  }

  // ----- The rest of a worker, uninterrupted -----

  /** The state after worker i has run from its Store to its end, having saved seg if there is one. */
  function Finished(c: Config, s: State, i: nat, seg: Option<SegmentData>): State
    requires i < |s.workers| && s.workers[i].phase.Stored?
    requires seg.Some? ==> s.workers[i].work.dongleID in c.devices
  {
    var w := s.workers[i].work;
    s.(workers := s.workers[i := Worker(w, Done, seg)],
       activeJobs := s.activeJobs - {w.dongleID}, count := s.count - 1,
       routes := RowsAfter(c, s.routes, w, seg),
       saves := s.saves + if seg.Some? then [Saving(i, KeyOf(c, w), seg.value)] else [])
  }

  /** The rows after a job that saves seg, if it saves anything. */
  function RowsAfter(c: Config, routes: map<Key, Route>, w: Work, seg: Option<SegmentData>): map<Key, Route>
    requires seg.Some? ==> w.dongleID in c.devices
  {
    if seg.None? then routes
    else
      var k := KeyOf(c, w);
      routes[k := FoldSegment(Lookup(routes, k), k.deviceID, k.routeID, seg.value)]
  }

  /** A save right after the read is taken: the row is stored, or its route id is new. */
  predicate SaveTaken(c: Config, routes: map<Key, Route>, w: Work)
    requires w.dongleID in c.devices
  {
    SaveAccepted(Lookup(routes, KeyOf(c, w)), routes, KeyOf(c, w))
  }

  /** A job changes the row its log belongs to and no other, and only by folding its segment in. */
  lemma JobKeepsToItsRow(c: Config, routes: map<Key, Route>, w: Work, seg: SegmentData, k: Key, other: Key)
    requires Concerns(c, w, k)
    ensures Lookup(RowsAfter(c, routes, w, Some(seg)), k) ==
            Some(FoldSegment(Lookup(routes, k), k.deviceID, k.routeID, seg))
    ensures other != k ==> Lookup(RowsAfter(c, routes, w, Some(seg)), other) == Lookup(routes, other)
    ensures SaveTaken(c, routes, w) <==> k in routes || forall x | x in routes :: x.routeID != w.routeID
  {
  }

  lemma FinishedRun(c: Config, s: State, i: nat, seg: Option<SegmentData>) returns (steps: seq<Step>)
    requires i < |s.workers| && s.workers[i].phase.Stored?
    requires if seg.Some? then s.workers[i].work.dongleID in c.devices && SaveTaken(c, s.routes, s.workers[i].work)
             else s.workers[i].saved.None?
    ensures Exec(c, s, steps) == Some(Finished(c, s, i, seg))
  {
    var w := s.workers[i];
    var t: State;
    if seg.Some? {
      t, steps := Extend(c, s, [], s, Read(i, seg.value));
      t, steps := Extend(c, s, steps, t, Save(i));
    } else {
      t, steps := Extend(c, s, [], s, Fail(i));
      assert s.saves + [] == s.saves;
    }
    assert t.workers == s.workers[i := Worker(w.work, Finishing, seg)];
    t, steps := EndWorker(c, s, steps, t, i);
    assert t.workers == s.workers[i := Worker(w.work, Done, seg)];
  }

  lemma EndWorker(c: Config, s: State, steps: seq<Step>, t: State, i: nat) returns (u: State, more: seq<Step>)
    requires Exec(c, s, steps) == Some(t) && i < |t.workers| && t.workers[i].phase.Finishing?
    ensures Exec(c, s, more) == Some(u)
    ensures u == t.(workers := t.workers[i := t.workers[i].(phase := Done)],
                    activeJobs := t.activeJobs - {t.workers[i].work.dongleID}, count := t.count - 1)
  {
    u, more := Extend(c, s, steps, t, Delete(i));
    u, more := Extend(c, s, more, u, Dec(i));
    assert u.workers == t.workers[i := t.workers[i].(phase := Done)];
  }

  // ----- processLog -----

  /** filepath.Ext: the suffix from the last dot of the last path element. */
  function Ext(path: string, end: nat := |path|): string
    requires end <= |path|
    decreases end
  {
    if end == 0 || path[end - 1] == '/' then ""
    else if path[end - 1] == '.' then path[end - 1..]
    else Ext(path, end - 1)
  }

  datatype LogError =
    | OpenFile | FindDevice | NewReader | UnsupportedExtension | Decode(error: DecodeError) | FindRoute | SaveRoute

  /** What the storage and the database answer while one log is processed. */
  datatype Answers = Answers(
    opens: bool, zstdOpens: bool, items: seq<Item>, findsRoute: bool, saves: bool)

  /** The first error processLog meets, in its order of checks. */
  function ProcessError(c: Config, routes: map<Key, Route>, w: Work, a: Answers): Option<LogError> {
    var k := FirstFailure(a.items);
    if !a.opens then Some(OpenFile)
    else if w.dongleID !in c.devices then Some(FindDevice)
    else if Ext(w.path) != ".zst" && Ext(w.path) != ".bz2" then Some(UnsupportedExtension)
    else if Ext(w.path) == ".zst" && !a.zstdOpens then Some(NewReader)
    else if k < |a.items| then Some(Decode(ReadError(a.items[k]).value))
    else if !a.findsRoute then Some(FindRoute)
    else if !a.saves || !SaveTaken(c, routes, w) then Some(SaveRoute)
    else None
  }

  /** The extension of a path that ends in a dot and a name is that dot and name. */
  lemma {:induction false} ExtOfSuffix(path: string, suffix: string, end: nat)
    requires HasSuffix(path, suffix) && |suffix| >= 2 && suffix[0] == '.'
    requires |path| - |suffix| < end <= |path|
    requires forall i | 0 < i < |suffix| :: suffix[i] != '.' && suffix[i] != '/'
    ensures Ext(path, end) == suffix
    decreases end
  {
    var start := |path| - |suffix|;
    assert path[end - 1] == suffix[end - 1 - start];
    if end - 1 > start {
      ExtOfSuffix(path, suffix, end - 1);
    }
  }

  lemma {:induction false} ExtIsSuffix(path: string, end: nat)
    requires end <= |path|
    ensures HasSuffix(path, Ext(path, end))
    decreases end
  {
    if end > 0 && path[end - 1] != '/' && path[end - 1] != '.' { ExtIsSuffix(path, end - 1); }
  }

  lemma ExtIsIff(path: string, suffix: string)
    requires |suffix| >= 2 && suffix[0] == '.' && forall i | 0 < i < |suffix| :: suffix[i] != '.' && suffix[i] != '/'
    ensures Ext(path) == suffix <==> HasSuffix(path, suffix)
  {
    ExtIsSuffix(path, |path|);
    if HasSuffix(path, suffix) { ExtOfSuffix(path, suffix, |path|); }
  }

  lemma ExtIff(path: string)
    ensures Ext(path) == ".bz2" <==> HasSuffix(path, ".bz2")
    ensures Ext(path) == ".zst" <==> HasSuffix(path, ".zst")
  {
    ExtIsIff(path, ".bz2");
    ExtIsIff(path, ".zst");
  }

  /** When a log is refused for its name: exactly if it can be opened, its dongle is registered, and the
      path ends in neither .bz2 nor .zst. */
  lemma UnsupportedIff(c: Config, routes: map<Key, Route>, w: Work, a: Answers)
    ensures ProcessError(c, routes, w, a) == Some(UnsupportedExtension) <==>
            a.opens && w.dongleID in c.devices && !HasSuffix(w.path, ".bz2") && !HasSuffix(w.path, ".zst")
  {
    ExtIff(w.path);
  }

  /** When a job succeeds: exactly if storage and database answer every question, the path ends in .bz2 or
      .zst, every item can be read, and the row is stored or its route id is free. Then the summary of
      all items is saved. */
  lemma SucceedsIff(c: Config, dist: Distance, routes: map<Key, Route>, w: Work, a: Answers)
    ensures ProcessError(c, routes, w, a).None? <==>
            && a.opens && w.dongleID in c.devices && a.findsRoute && a.saves && Clean(a.items)
            && (HasSuffix(w.path, ".bz2") || (HasSuffix(w.path, ".zst") && a.zstdOpens))
            && (Key(c.devices[w.dongleID], w.routeID) in routes || forall x | x in routes :: x.routeID != w.routeID)
    ensures ProcessError(c, routes, w, a).None? ==>
            Clean(a.items) && SavedSegment(c, dist, routes, w, a) == Some(Summary(dist, a.items))
  {
    ExtIff(w.path);
    if Clean(a.items) {
      NoFailure(a.items);
    } else {
      assert a.items[..|a.items|] == a.items;
    }
    if ProcessError(c, routes, w, a).None? { assert a.items[..|a.items|] == a.items; }
    assert !(HasSuffix(w.path, ".bz2") && HasSuffix(w.path, ".zst"));
  }

  /** What a job ends up saving: the summary of its events, unless it meets an error. */
  function SavedSegment(c: Config, dist: Distance, routes: map<Key, Route>, w: Work, a: Answers)
    : (seg: Option<SegmentData>)
    ensures seg.Some? <==> ProcessError(c, routes, w, a).None?
    ensures seg.Some? ==> w.dongleID in c.devices
  {
    if ProcessError(c, routes, w, a).Some? then None
    else
      assert a.items[..|a.items|] == a.items;
      Some(Summary(dist, a.items))
  }

  class LogQueue {
    const config: Config
    const dist: Distance
    var queue: seq<Work>
    var activeJobsCount: int
    var activeJobs: map<string, nat>
    var workers: seq<Worker>
    var routes: map<Key, Route>
    ghost var blocked: multiset<Work>
    ghost var added: multiset<Work>
    ghost var saves: seq<Saving>

    /** The state of the transition system while the dispatcher waits for work. */
    ghost function Abs(): State
      reads this
    {
      State(blocked, queue, Idle, activeJobsCount, activeJobs, workers, routes, added, saves)
    }

    constructor (config: Config, dist: Distance, routes: map<Key, Route>)
      ensures Abs() == Initial(routes) && this.config == config && this.dist == dist
    {
      this.config, this.dist := config, dist;
      queue, activeJobsCount, activeJobs, workers := [], 0, map[], [];
      this.routes := routes;
      blocked, added, saves := multiset{}, multiset{}, [];
    }

    /** AddLog: the send completes at once when the channel has room, and blocks otherwise. */
    method AddLog(path: string, dongleID: string, routeID: string) returns (sent: bool)
      modifies `queue, `blocked, `added
      ensures sent <==> |old(queue)| < QUEUE_DEPTH
      ensures var w := Work(path, dongleID, routeID);
              var s := Next(config, old(Abs()), Add(w));
              Abs() == if sent then Next(config, s, Enqueue(w)) else s
    {
      var work := Work(path, dongleID, routeID);
      added := added + multiset{work};
      if |queue| < QUEUE_DEPTH {
        queue := queue + [work];
        assert (blocked + multiset{work}) - multiset{work} == blocked;
        return true;
      }
      blocked := blocked + multiset{work};
      return false;
    }

    /** One turn of Start's loop, the spawned goroutine's Store included. */
    method DispatchOne()
      requires queue != []
      modifies `queue, `activeJobsCount, `activeJobs, `workers
      ensures Abs() == Dispatched(config, old(Abs()))
    {
      var work := queue[0];
      queue := queue[1..];
      if work.dongleID in activeJobs {
        queue := queue + [work];
        return;
      }
      if WrapUint64(activeJobsCount) < config.parallelLogParsers {
        activeJobsCount := activeJobsCount + 1;
        activeJobs := activeJobs[work.dongleID := |workers|];
        workers := workers + [Worker(work, Stored, None)];
      } else {
        queue := queue + [work];
      }
    }

    /** One rotation: as many turns as there are works queued. */
    method Rotate()
      modifies `queue, `activeJobsCount, `activeJobs, `workers
      ensures Abs() == Turns(config, old(Abs()), |old(queue)|)
    {
      var n := |queue|;
      var i := 0;
      while i < n
        invariant 0 <= i <= n && n - i <= |queue|
        invariant Turns(config, Abs(), n - i) == Turns(config, old(Abs()), n)
      {
        DispatchOne();
        i := i + 1;
      }
    }

    /** processLog, from the storage read to the save of the row. */
    method ProcessLog(work: Work, answers: Answers) returns (err: Option<LogError>)
      modifies `routes
      ensures err == ProcessError(config, old(routes), work, answers)
      ensures routes ==
              RowsAfter(config, old(routes), work, SavedSegment(config, dist, old(routes), work, answers))
    {
      if !answers.opens {
        return Some(OpenFile);
      }
      if work.dongleID !in config.devices {
        return Some(FindDevice);
      }
      var ext := Ext(work.path);
      if ext == ".zst" {
        if !answers.zstdOpens {
          return Some(NewReader);
        }
      } else if ext != ".bz2" {
        return Some(UnsupportedExtension);
      }
      var decoded := DecodeSegmentData(dist, answers.items);
      if decoded.Err? {
        return Some(Decode(decoded.error));
      }
      assert answers.items[..|answers.items|] == answers.items;
      if !answers.findsRoute {
        return Some(FindRoute);
      }
      var key := KeyOf(config, work);
      var row := Lookup(routes, key);
      var route := UpdateRoute(row, key.deviceID, key.routeID, decoded.value);
      if !answers.saves || !SaveAccepted(row, routes, key) {
        return Some(SaveRoute);
      }
      routes := routes[key := route];
      return None;
    }

    /** The rest of the goroutine of worker i when nothing interferes: processLog, Delete, Dec. The
        new state is the one the transition system reaches, with a save exactly when no error occurs. */
    method Finish(i: nat, answers: Answers) returns (err: Option<LogError>)
      requires i < |workers| && workers[i].phase.Stored?
      modifies `workers, `routes, `saves, `activeJobs, `activeJobsCount
      ensures err == ProcessError(config, old(routes), old(workers)[i].work, answers)
      ensures Abs() == Finished(config, old(Abs()), i,
                                SavedSegment(config, dist, old(routes), old(workers)[i].work, answers))
    {
      var work := workers[i].work;
      var seg := SavedSegment(config, dist, routes, work, answers);
      err := ProcessLog(work, answers);
      workers := workers[i := Worker(work, Done, seg)];
      saves := saves + if seg.Some? then [Saving(i, KeyOf(config, work), seg.value)] else [];
      activeJobs := activeJobs - {work.dongleID};
      activeJobsCount := activeJobsCount - 1;
    }
  }
}
