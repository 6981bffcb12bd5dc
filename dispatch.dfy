/** The bookkeeping of AlertSystem (src/analyzer/alert_system.py) as a pure
    state machine: one value per state of the object, one function per
    operation, and the properties that hold of every run of operations. */
module Dispatch {
  import opened AlertText

  datatype Option<T> = None | Some(value: T)

  /** alert_cooldown, in the clock's unit (seconds). */
  const Cooldown: real := 3.0

  /** The state of an AlertSystem. `queue` is alert_queue, where None is the
      stop sentinel; `lastAlertTime` is last_alert_time; `isSpeaking` is
      is_speaking; `running` says the worker loop has not yet met the
      sentinel; `spoken` lists the texts handed to the speech engine. */
  datatype State = State(
    queue: seq<Option<string>>,
    lastAlertTime: map<string, real>,
    isSpeaking: bool,
    running: bool,
    spoken: seq<string>)

  /** The state right after construction: nothing submitted yet, the worker
      in its loop and idle, so stop() could proceed at once. */
  function Initial(): (s: State)
    ensures Wf(s) && s.running && CanStop(s)
    ensures History(s) == [] && s.lastAlertTime == map[]
  {
    State([], map[], false, true, [])
  }

  /** Nothing is being spoken once the worker has left its loop. */
  predicate Wf(s: State)
  {
    !s.running ==> !s.isSpeaking
  }

  /** An alert for `key` submitted at `now` is dropped: a key never stamped
      is never dropped, and a stamped key is dropped at every time before
      Cooldown after its stamp, including times before the stamp when the
      clock has been set back, and no longer from then on. */
  predicate Debounced(table: map<string, real>, key: string, now: real)
    ensures key !in table ==> !Debounced(table, key, now)
    ensures key in table && now < table[key] + Cooldown ==> Debounced(table, key, now)
    ensures key in table && table[key] + Cooldown <= now ==> !Debounced(table, key, now)
  {
    key in table && now - table[key] < Cooldown
  }

  // ---------------------------------------------------------------------------
  // Operations
  // ---------------------------------------------------------------------------

  /** add_alert: whether it was dropped or accepted, the key is suppressed
      at `now` afterwards; the queue grows by at most one entry at its tail,
      and the worker's part of the state is untouched. */
  function AddAlert(s: State, objectLabel: string, position: string, distance: real, now: real): (r: State)
    ensures Debounced(r.lastAlertTime, AlertKey(objectLabel, position), now)
    ensures s.queue <= r.queue && |r.queue| <= |s.queue| + 1
    ensures s.lastAlertTime.Keys <= r.lastAlertTime.Keys
    ensures r.isSpeaking == s.isSpeaking && r.running == s.running && r.spoken == s.spoken
  {
    var key := AlertKey(objectLabel, position);
    if Debounced(s.lastAlertTime, key, now) then s
    else s.(queue := s.queue + [Some(AlertMessage(objectLabel, position, distance))],
            lastAlertTime := s.lastAlertTime[key := now])
  }

  /** speak_summary: one "Summary: " text at the tail of the queue; the
      cooldown table is neither read nor written. */
  function SpeakSummary(s: State, text: string): (r: State)
    ensures |r.queue| == |s.queue| + 1 && s.queue <= r.queue
    ensures r.queue[|s.queue|].Some? && StartsWith(r.queue[|s.queue|].value, SummaryPrefix)
    ensures r.lastAlertTime == s.lastAlertTime
    ensures r.isSpeaking == s.isSpeaking && r.running == s.running && r.spoken == s.spoken
  {
    s.(queue := s.queue + [Some(SummaryMessage(text))])
  }

  /** The worker can take the head: it is in its loop, between two texts,
      and get() has something to return. */
  predicate CanTake(s: State)
  {
    s.running && !s.isSpeaking && s.queue != []
  }

  /** get(); on the sentinel the loop ends, otherwise is_speaking becomes
      true and the text goes to the engine. */
  function Take(s: State): (r: State)
    requires CanTake(s)
    ensures r.queue == s.queue[1..] && r.lastAlertTime == s.lastAlertTime
    ensures r.running <==> s.queue[0] != None
    ensures r.isSpeaking <==> r.running
    ensures s.spoken <= r.spoken && |r.spoken| == |s.spoken| + (if r.running then 1 else 0)
  {
    match s.queue[0]
    case None => s.(queue := s.queue[1..], running := false)
    case Some(text) => s.(queue := s.queue[1..], isSpeaking := true, spoken := s.spoken + [text])
  }

  /** The engine has finished: is_speaking becomes false. */
  function Finish(s: State): (r: State)
    requires s.isSpeaking
    ensures !r.isSpeaking
    ensures r.queue == s.queue && r.lastAlertTime == s.lastAlertTime && r.running == s.running && r.spoken == s.spoken
  {
    s.(isSpeaking := false)
  }

  /** One pass of the worker loop. */
  function Step(s: State): (r: State)
    requires CanTake(s)
    ensures !r.isSpeaking && r.queue == s.queue[1..] && r.lastAlertTime == s.lastAlertTime
    ensures r.running <==> s.queue[0] != None
    ensures r.spoken == s.spoken + (if s.queue[0] == None then [] else [s.queue[0].value])
  {
    var t := Take(s);
    if t.isSpeaking then Finish(t) else t
  }

  /** The condition the wait loop of stop() waits for. */
  predicate CanStop(s: State)
  {
    s.queue == [] && !s.isSpeaking
  }

  /** stop(): the sentinel goes into the drained queue. */
  function Stop(s: State): (r: State)
    requires CanStop(s)
    ensures r.queue == [None] && (r.running ==> CanTake(r))
    ensures r.lastAlertTime == s.lastAlertTime && r.isSpeaking == s.isSpeaking
    ensures r.running == s.running && r.spoken == s.spoken
  {
    s.(queue := [None])
  }

  // ---------------------------------------------------------------------------
  // Runs of operations
  // ---------------------------------------------------------------------------

  datatype Op =
    | AddAlertOp(objectLabel: string, position: string, distance: real, now: real)
    | SummaryOp(text: string)
    | TakeOp
    | FinishOp
    | StopOp

  predicate Enabled(s: State, op: Op)
  {
    match op
    case TakeOp => CanTake(s)
    case FinishOp => s.isSpeaking
    case StopOp => CanStop(s)
    case _ => true
  }

  function Apply(s: State, op: Op): State
    requires Enabled(s, op)
  {
    match op
    case AddAlertOp(l, p, d, now) => AddAlert(s, l, p, d, now)
    case SummaryOp(text) => SpeakSummary(s, text)
    case TakeOp => Take(s)
    case FinishOp => Finish(s)
    case StopOp => Stop(s)
  }

  /** What an operation submits to the queue, decided on the state before it. */
  function Put(s: State, op: Op): seq<Option<string>>
  {
    match op
    case AddAlertOp(l, p, d, now) =>
      if Debounced(s.lastAlertTime, AlertKey(l, p), now) then [] else [Some(AlertMessage(l, p, d))]
    case SummaryOp(text) => [Some(SummaryMessage(text))]
    case StopOp => [None]
    case _ => []
  }

  predicate Runnable(s: State, ops: seq<Op>)
    decreases |ops|
  {
    ops == [] || (Enabled(s, ops[0]) && Runnable(Apply(s, ops[0]), ops[1..]))
  }

  function Run(s: State, ops: seq<Op>): State
    requires Runnable(s, ops)
    decreases |ops|
  {
    if ops == [] then s else Run(Apply(s, ops[0]), ops[1..])
  }

  /** Everything the operations of a run submit, in submission order. */
  function Submitted(s: State, ops: seq<Op>): seq<Option<string>>
    requires Runnable(s, ops)
    decreases |ops|
  {
    if ops == [] then [] else Put(s, ops[0]) + Submitted(Apply(s, ops[0]), ops[1..])
  }

  function Wrap(texts: seq<string>): (r: seq<Option<string>>)
    ensures |r| == |texts|
  {
    if texts == [] then [] else [Some(texts[0])] + Wrap(texts[1..])
  }

  /** Everything ever submitted: what was spoken, the sentinel the worker
      has consumed, and what is still queued. */
  function History(s: State): seq<Option<string>>
  {
    Wrap(s.spoken) + Pending(s)
  }

  /** The sentinel the worker has consumed, if any, then the queue. */
  function Pending(s: State): seq<Option<string>>
  {
    (if s.running then [] else [None]) + s.queue
  }

  // ---------------------------------------------------------------------------
  // Debouncing
  // ---------------------------------------------------------------------------

  /** add_alert leaves the state alone exactly when the key was stamped less
      than Cooldown before `now`. */
  lemma DropsExactlyWhenDebounced(s: State, objectLabel: string, position: string, distance: real, now: real)
    ensures AddAlert(s, objectLabel, position, distance, now) == s
            <==> Debounced(s.lastAlertTime, AlertKey(objectLabel, position), now)
  {
    var r := AddAlert(s, objectLabel, position, distance, now);
    if !Debounced(s.lastAlertTime, AlertKey(objectLabel, position), now) {
      assert |r.queue| == |s.queue| + 1;
    }
  }

  /** An accepted alert touches only its own key and the tail of the queue. */
  lemma AcceptedAlert(s: State, objectLabel: string, position: string, distance: real, now: real)
    requires !Debounced(s.lastAlertTime, AlertKey(objectLabel, position), now)
    ensures var r := AddAlert(s, objectLabel, position, distance, now);
            |r.queue| == |s.queue| + 1 && r.queue[..|s.queue|] == s.queue &&
            r.queue[|s.queue|] == Some(AlertMessage(objectLabel, position, distance)) &&
            r.lastAlertTime.Keys == s.lastAlertTime.Keys + {AlertKey(objectLabel, position)} &&
            r.lastAlertTime[AlertKey(objectLabel, position)] == now &&
            (forall k :: k in s.lastAlertTime && k != AlertKey(objectLabel, position) ==> r.lastAlertTime[k] == s.lastAlertTime[k]) &&
            r.isSpeaking == s.isSpeaking && r.running == s.running && r.spoken == s.spoken
  {
    var r := AddAlert(s, objectLabel, position, distance, now);
    assert r.queue == s.queue + [Some(AlertMessage(objectLabel, position, distance))];
  }

  /** A second alert for the same label and position less than Cooldown
      after an accepted one is dropped, whatever its distance. */
  lemma RepeatWithinCooldownDropped(s: State, objectLabel: string, position: string,
                                    distance1: real, now1: real, distance2: real, now2: real)
    requires !Debounced(s.lastAlertTime, AlertKey(objectLabel, position), now1)
    requires now2 - now1 < Cooldown
    ensures var first := AddAlert(s, objectLabel, position, distance1, now1);
            AddAlert(first, objectLabel, position, distance2, now2) == first
  {
    var first := AddAlert(s, objectLabel, position, distance1, now1);
    assert Debounced(first.lastAlertTime, AlertKey(objectLabel, position), now2);
  }

  /** Three alerts for one label and position: the second, less than
      Cooldown after the first, is dropped; the third, Cooldown or more
      after the first, is spoken. The comparison is strict, so a repeat
      exactly Cooldown later gets through. */
  lemma ThreeAlerts(s: State, objectLabel: string, position: string,
                    d1: real, t1: real, d2: real, t2: real, d3: real, t3: real)
    requires AlertKey(objectLabel, position) !in s.lastAlertTime
    requires t2 - t1 < Cooldown && Cooldown <= t3 - t1
    ensures var r := AddAlert(AddAlert(AddAlert(s, objectLabel, position, d1, t1), objectLabel, position, d2, t2),
                              objectLabel, position, d3, t3);
            r.queue == s.queue + [Some(AlertMessage(objectLabel, position, d1)), Some(AlertMessage(objectLabel, position, d3))] &&
            r.lastAlertTime == s.lastAlertTime[AlertKey(objectLabel, position) := t3]
  {
    var key, m1, m3 := AlertKey(objectLabel, position), AlertMessage(objectLabel, position, d1), AlertMessage(objectLabel, position, d3);
    var a := AddAlert(s, objectLabel, position, d1, t1);
    AcceptedEffect(s, objectLabel, position, d1, t1);
    RepeatWithinCooldownDropped(s, objectLabel, position, d1, t1, d2, t2);
    AcceptedEffect(a, objectLabel, position, d3, t3);
    QueueTwo(s.queue, m1, m3);
    Restamp(s.lastAlertTime, key, t1, t3);
  }

  lemma Restamp(table: map<string, real>, key: string, t1: real, t3: real)
    ensures table[key := t1][key := t3] == table[key := t3]
  {
  }

  /** The effect of an accepted alert, as one state update. */
  lemma AcceptedEffect(s: State, objectLabel: string, position: string, distance: real, now: real)
    requires !Debounced(s.lastAlertTime, AlertKey(objectLabel, position), now)
    ensures AddAlert(s, objectLabel, position, distance, now) ==
            s.(queue := s.queue + [Some(AlertMessage(objectLabel, position, distance))],
               lastAlertTime := s.lastAlertTime[AlertKey(objectLabel, position) := now])
  {
  }

  lemma QueueTwo(q: seq<Option<string>>, m1: string, m3: string)
    ensures q + [Some(m1)] + [Some(m3)] == q + [Some(m1), Some(m3)]
  {
  }

  /** A summary is always enqueued and leaves every later debounce decision
      as it would have been without it. */
  lemma SummaryNeverDebounced(s: State, text: string, objectLabel: string, position: string, distance: real, now: real)
    ensures SpeakSummary(s, text).queue == s.queue + [Some(SummaryMessage(text))]
    ensures var withSummary := AddAlert(SpeakSummary(s, text), objectLabel, position, distance, now);
            var without := AddAlert(s, objectLabel, position, distance, now);
            withSummary.lastAlertTime == without.lastAlertTime &&
            withSummary.queue == s.queue + [Some(SummaryMessage(text))] + without.queue[|s.queue|..]
  {
    var without := AddAlert(s, objectLabel, position, distance, now);
    if !Debounced(s.lastAlertTime, AlertKey(objectLabel, position), now) {
      assert without.queue[|s.queue|..] == [Some(AlertMessage(objectLabel, position, distance))];
    } else {
      assert without.queue[|s.queue|..] == [];
    }
  }

  /** No operation removes a key or moves a stamp back; a stamp that moves
      moves forward by at least Cooldown, whatever the clock does. */
  lemma ApplyKeepsStamps(s: State, op: Op)
    requires Enabled(s, op)
    ensures var r := Apply(s, op);
            forall k :: k in s.lastAlertTime ==>
              k in r.lastAlertTime &&
              (r.lastAlertTime[k] == s.lastAlertTime[k] || s.lastAlertTime[k] + Cooldown <= r.lastAlertTime[k])
  {
  }

  lemma {:induction false} RunKeepsStamps(s: State, ops: seq<Op>)
    requires Runnable(s, ops)
    ensures forall k :: k in s.lastAlertTime ==>
              k in Run(s, ops).lastAlertTime && s.lastAlertTime[k] <= Run(s, ops).lastAlertTime[k]
    decreases |ops|
  {
    if ops != [] {
      ApplyKeepsStamps(s, ops[0]);
      RunKeepsStamps(Apply(s, ops[0]), ops[1..]);
    }
  }

  // ---------------------------------------------------------------------------
  // First in, first out
  // ---------------------------------------------------------------------------

  lemma {:induction false} WrapAppend(a: seq<string>, b: seq<string>)
    ensures Wrap(a + b) == Wrap(a) + Wrap(b)
    decreases |a|
  {
    if a != [] {
      assert (a + b)[0] == a[0] && (a + b)[1..] == a[1..] + b;
      WrapAppend(a[1..], b);
    } else {
      assert a + b == b;
    }
  }

  lemma ApplyWf(s: State, op: Op)
    requires Wf(s) && Enabled(s, op)
    ensures Wf(Apply(s, op))
  {
  }

  /** Every operation adds what it submits at the end of the history, and
      taking a text off the queue moves it to `spoken` without reordering. */
  lemma ApplyHistory(s: State, op: Op)
    requires Wf(s) && Enabled(s, op)
    ensures History(Apply(s, op)) == History(s) + Put(s, op)
  {
    if op.TakeOp? {
      TakeKeepsHistory(s);
    } else {
      var r := Apply(s, op);
      assert r.spoken == s.spoken && r.running == s.running && r.queue == s.queue + Put(s, op);
      assert Pending(r) == Pending(s) + Put(s, op);
    }
  }

  /** Taking the head moves it from the queue to the spoken texts, or
      consumes the sentinel: the history is the same. */
  lemma TakeKeepsHistory(s: State)
    requires CanTake(s)
    ensures History(Take(s)) == History(s)
  {
    var q := s.queue;
    assert q == [q[0]] + q[1..];
    if q[0].Some? {
      WrapAppend(s.spoken, [q[0].value]);
      assert Wrap([q[0].value]) == [q[0]];
    }
  }

  /** Over any run, the history grows by exactly what was submitted, in
      submission order. */
  lemma {:induction false} RunHistory(s: State, ops: seq<Op>)
    requires Wf(s) && Runnable(s, ops)
    ensures Wf(Run(s, ops))
    ensures History(Run(s, ops)) == History(s) + Submitted(s, ops)
    decreases |ops|
  {
    if ops != [] {
      var t := Apply(s, ops[0]);
      ApplyHistory(s, ops[0]);
      ApplyWf(s, ops[0]);
      RunHistory(t, ops[1..]);
      assert Run(s, ops) == Run(t, ops[1..]);
      assert Submitted(s, ops) == Put(s, ops[0]) + Submitted(t, ops[1..]);
      AppendAssociates(History(s), Put(s, ops[0]), Submitted(t, ops[1..]));
    }
  }

  lemma AppendAssociates(a: seq<Option<string>>, b: seq<Option<string>>, c: seq<Option<string>>)
    ensures a + b + c == a + (b + c)
  {
  }

  lemma PrefixOfAppend(a: seq<Option<string>>, b: seq<Option<string>>)
    ensures a <= a + b
  {
    assert (a + b)[..|a|] == a;
  }

  /** The engine is handed a prefix of the history extended by the run's
      submissions: in submission order, none skipped, none invented. */
  lemma SpokenInSubmissionOrder(s: State, ops: seq<Op>)
    requires Wf(s) && Runnable(s, ops)
    ensures Wrap(Run(s, ops).spoken) <= History(s) + Submitted(s, ops)
  {
    RunHistory(s, ops);
    var r := Run(s, ops);
    PrefixOfAppend(Wrap(r.spoken), Pending(r));
  }

  // ---------------------------------------------------------------------------
  // The worker loop and shutdown
  // ---------------------------------------------------------------------------

  /** The texts in front of the first sentinel of q, in queue order. */
  function TextsBeforeSentinel(q: seq<Option<string>>): (r: seq<string>)
    ensures |r| <= |q|
    ensures forall i :: 0 <= i < |r| ==> q[i] == Some(r[i])
    ensures |r| < |q| ==> q[|r|] == None
  {
    if q == [] || q[0] == None then [] else [q[0].value] + TextsBeforeSentinel(q[1..])
  }

  /** What follows the first sentinel of q; nothing when q has none. */
  function AfterSentinel(q: seq<Option<string>>): (r: seq<Option<string>>)
    ensures None in q ==> r == q[|TextsBeforeSentinel(q)| + 1..]
    ensures None !in q ==> r == []
  {
    if q == [] then []
    else if q[0] == None then q[1..]
    else
      assert q == [q[0]] + q[1..];
      AfterSentinel(q[1..])
  }

  /** _tts_worker run until get() would block or the sentinel is met. */
  function Drain(s: State): (r: State)
    requires s.running && !s.isSpeaking
    ensures !r.isSpeaking && r.lastAlertTime == s.lastAlertTime
    decreases |s.queue|
  {
    if s.queue == [] then s
    else
      var t := Step(s);
      if !t.running then t else Drain(t)
  }

  /** The loop speaks the texts in front of the first sentinel, in queue
      order; the sentinel ends the loop and what follows it stays queued;
      without a sentinel the queue is emptied and the loop goes on. */
  lemma {:induction false} DrainSpeaksInOrder(s: State)
    requires s.running && !s.isSpeaking
    ensures Drain(s).spoken == s.spoken + TextsBeforeSentinel(s.queue)
    ensures Drain(s).running <==> None !in s.queue
    ensures Drain(s).queue == AfterSentinel(s.queue)
    decreases |s.queue|
  {
    if s.queue != [] {
      var t := Step(s);
      if t.running {
        var q := s.queue;
        assert q == [q[0]] + t.queue;
        assert TextsBeforeSentinel(q) == [q[0].value] + TextsBeforeSentinel(t.queue);
        assert t.spoken == s.spoken + [q[0].value];
        DrainSpeaksInOrder(t);
      }
    }
  }

  /** A running worker with no sentinel queued drains the queue and stays in
      its loop, idle: the state the wait loop of stop() waits for. */
  lemma DrainReachesStop(s: State)
    requires s.running && !s.isSpeaking && None !in s.queue
    ensures CanStop(Drain(s)) && Drain(s).running
  {
    DrainSpeaksInOrder(s);
  }

  /** stop() on a drained system, then the worker: the sentinel is consumed,
      the queue is left empty, the loop has ended and nothing more was said. */
  lemma StopThenDrain(s: State)
    requires s.running && CanStop(s)
    ensures var r := Drain(Stop(s));
            r.queue == [] && !r.running && !r.isSpeaking && r.spoken == s.spoken &&
            r.lastAlertTime == s.lastAlertTime
  {
    DrainSpeaksInOrder(Stop(s));
  }
}
