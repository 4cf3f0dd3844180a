/** An event-emitting counter: a held integer with `increment` and
    `decrement`, each of which changes the value and then emits one event of
    its own kind carrying the new value.

    The emitter is modelled by the trace of events the counter has emitted;
    the listeners of the driver script are modelled by `Observed`, which
    fans every emitted event out to the registrations for its kind. */
module Counter {

  datatype EventKind = Incremented | Decremented

  /** One emitted event: its kind (the event name) and its payload. */
  datatype Event = Event(kind: EventKind, payload: int)

  /** The value the counter holds, and every event emitted so far, oldest first. */
  datatype State = State(count: int, trace: seq<Event>)

  /** The two public operations of a counter. */
  datatype Op = Inc | Dec

  /** `new Counter(i)`: a counter holding `i` that has emitted nothing. */
  function New(i: int): (s: State)
    ensures s.count == i && |s.trace| == 0
  {
    State(i, [])
  }

  /** The event kind an operation emits. */
  function KindOf(op: Op): EventKind {
    match op
    case Inc => Incremented
    case Dec => Decremented
  }

  /** `increment`: the count goes up by one and exactly one `Incremented`
      event is appended, carrying the count after the change. */
  function Increment(s: State): (r: State)
    ensures r.count == s.count + 1
    ensures |r.trace| == |s.trace| + 1 && r.trace[..|s.trace|] == s.trace
    ensures r.trace[|s.trace|] == Event(Incremented, r.count)
  {
    var n := s.count + 1;
    State(n, s.trace + [Event(Incremented, n)])
  }

  /** `decrement`: the count goes down by one and exactly one `Decremented`
      event is appended, carrying the count after the change. */
  function Decrement(s: State): (r: State)
    ensures r.count == s.count - 1
    ensures |r.trace| == |s.trace| + 1 && r.trace[..|s.trace|] == s.trace
    ensures r.trace[|s.trace|] == Event(Decremented, r.count)
  {
    var n := s.count - 1;
    State(n, s.trace + [Event(Decremented, n)])
  }

  /** One call of either operation: one event of the call's kind is
      appended, carrying the count after the change. */
  function Apply(s: State, op: Op): (r: State)
    ensures r.count == s.count + (if op == Inc then 1 else -1)
    ensures |r.trace| == |s.trace| + 1 && r.trace[..|s.trace|] == s.trace
    ensures r.trace[|s.trace|] == Event(KindOf(op), r.count)
  {
    match op
    case Inc => Increment(s)
    case Dec => Decrement(s)
  }

  /** How many of the calls in `ops` are `op`. */
  function Occurrences(ops: seq<Op>, op: Op): nat
    decreases |ops|
  {
    if ops == [] then 0 else (if ops[0] == op then 1 else 0) + Occurrences(ops[1..], op)
  }

  /** Net effect of a call sequence on the count: increments minus decrements. */
  function Net(ops: seq<Op>): int {
    Occurrences(ops, Inc) - Occurrences(ops, Dec)
  }

  /** Runs the calls `ops` in order. The emitted trace grows by one event per
      call, of that call's kind, earlier events untouched; the count moves
      by the number of increments minus the number of decrements and by
      nothing else. */
  function Run(s: State, ops: seq<Op>): (r: State)
    ensures |r.trace| == |s.trace| + |ops|
    ensures r.trace[..|s.trace|] == s.trace
    ensures r.count == s.count + Net(ops)
    decreases |ops|
  {
    if |ops| == 0 then s
    else
      var s' := Apply(s, ops[0]);
      var r := Run(s', ops[1..]);
      assert r.trace[..|s.trace|] == r.trace[..|s'.trace|][..|s.trace|];
      r
  }

  /** The event emitted by the `i`-th call has that call's kind. */
  lemma {:induction false} RunKinds(s: State, ops: seq<Op>, i: nat)
    requires i < |ops|
    ensures Run(s, ops).trace[|s.trace| + i].kind == KindOf(ops[i])
    decreases |ops|
  {
    var s' := Apply(s, ops[0]);
    var r := Run(s', ops[1..]);
    assert Run(s, ops) == r;
    if i == 0 {
      assert r.trace[..|s'.trace|] == s'.trace;
      assert r.trace[|s.trace|] == s'.trace[|s.trace|];
    } else {
      RunKinds(s', ops[1..], i - 1);
      assert |s'.trace| + (i - 1) == |s.trace| + i;
    }
  }

  /** Increment then decrement restores the count, and emits exactly the two
      events announcing the intermediate and the restored value. */
  lemma IncrementThenDecrement(s: State)
    ensures Decrement(Increment(s)).count == s.count
    ensures Decrement(Increment(s)).trace
            == s.trace + [Event(Incremented, s.count + 1), Event(Decremented, s.count)]
  {
  }

  /** Decrement then increment restores the count as well. */
  lemma DecrementThenIncrement(s: State)
    ensures Increment(Decrement(s)).count == s.count
    ensures Increment(Decrement(s)).trace
            == s.trace + [Event(Decremented, s.count - 1), Event(Incremented, s.count)]
  {
  }

  /** Mutation happens before emission: the payload of the event emitted by
      the `j`-th call equals the count right after the first `j + 1` calls. */
  lemma {:induction false} PayloadIsStateAfter(s: State, ops: seq<Op>, j: nat)
    requires j < |ops|
    ensures Run(s, ops).trace[|s.trace| + j].payload == Run(s, ops[..j + 1]).count
    decreases |ops|
  {
    var s' := Apply(s, ops[0]);
    var pre := ops[..j + 1];
    assert pre[1..] == ops[1..][..j];
    var r := Run(s', ops[1..]);
    var q := Run(s', pre[1..]);
    assert Run(s, ops) == r;
    assert Run(s, pre) == q;
    if j == 0 {
      assert q == s';
      assert r.trace[..|s'.trace|] == s'.trace;
      assert r.trace[|s.trace|] == s'.trace[|s.trace|];
    } else {
      PayloadIsStateAfter(s', ops[1..], j - 1);
      assert |s'.trace| + (j - 1) == |s.trace| + j;
      assert r.trace[|s'.trace| + (j - 1)].payload == q.count;
    }
  }

  /** The count a trace implies: +1 per `Incremented`, -1 per `Decremented`. */
  function Delta(t: seq<Event>): int
    decreases |t|
  {
    if t == [] then 0
    else Delta(t[..|t| - 1]) + (if t[|t| - 1].kind == Incremented then 1 else -1)
  }

  /** The trace explains the count: starting from `start`, replaying the
      emitted kinds yields the count the counter holds. */
  ghost predicate Replays(start: int, s: State) {
    s.count == start + Delta(s.trace)
  }

  /** Every call sequence keeps the trace and the count in agreement, so the
      count changes only through the two operations, each by exactly one. */
  lemma {:induction false} RunReplays(start: int, s: State, ops: seq<Op>)
    requires Replays(start, s)
    ensures Replays(start, Run(s, ops))
    decreases |ops|
  {
    if ops != [] {
      var s' := Apply(s, ops[0]);
      assert s'.trace[..|s'.trace| - 1] == s.trace;
      RunReplays(start, s', ops[1..]);
    }
  }

  /** What one registered listener callback receives when `e` is emitted:
      `subs` lists, in registration order, the kinds the shared callback was
      added for; each matching registration receives the payload once. */
  function Deliver(e: Event, subs: seq<EventKind>): (r: seq<int>)
    ensures |r| == multiset(subs)[e.kind]
    ensures forall j :: 0 <= j < |r| ==> r[j] == e.payload
  {
    if subs == [] then []
    else
      assert subs == [subs[0]] + subs[1..];
      (if subs[0] == e.kind then [e.payload] else []) + Deliver(e, subs[1..])
  }

  /** Everything the shared callback logs for a trace, in emission order. */
  function Observed(trace: seq<Event>, subs: seq<EventKind>): (r: seq<int>)
    ensures subs == [] ==> r == []
    decreases |trace|
  {
    if trace == [] then [] else Deliver(trace[0], subs) + Observed(trace[1..], subs)
  }

  /** Emitting one more event appends exactly that event's deliveries to
      the log: the fan-out happens in emission order, for any registrations. */
  lemma {:induction false} ObservedAppend(t: seq<Event>, e: Event, subs: seq<EventKind>)
    ensures Observed(t + [e], subs) == Observed(t, subs) + Deliver(e, subs)
    decreases |t|
  {
    if t == [] {
      assert ([e])[1..] == [];
    } else {
      assert (t + [e])[1..] == t[1..] + [e];
      ObservedAppend(t[1..], e, subs);
    }
  }

  /** The payloads of a trace, in emission order. */
  function Payloads(trace: seq<Event>): seq<int> {
    seq(|trace|, i requires 0 <= i < |trace| => trace[i].payload)
  }

  /** With one callback registered once for each kind, the log is exactly
      the payloads of the trace, one line per emitted event. */
  lemma {:induction false} ObservedOnceEach(trace: seq<Event>, subs: seq<EventKind>)
    requires multiset(subs)[Incremented] == 1 && multiset(subs)[Decremented] == 1
    ensures Observed(trace, subs) == Payloads(trace)
    decreases |trace|
  {
    if trace != [] {
      ObservedOnceEach(trace[1..], subs);
      var d := Deliver(trace[0], subs);
      assert d == [trace[0].payload];
    }
  }

  /** The driver script's calls: increment twice, then decrement three times. */
  const Script: seq<Op> := [Inc, Inc, Dec, Dec, Dec]

  /** The driver script's listener registrations: one callback added for
      `incremented`, then the same callback added for `decremented`. */
  const ScriptListeners: seq<EventKind> := [Incremented, Decremented]

  lemma ScriptListenersOnceEach()
    ensures multiset(ScriptListeners)[Incremented] == 1
    ensures multiset(ScriptListeners)[Decremented] == 1
  {
  }

  /** The driver script's calls on a counter created at 10 emit, in order,
      the events 11, 12 (incremented) and 11, 10, 9 (decremented). */
  lemma ScriptTrace()
    ensures Run(New(10), Script).count == 9
    ensures Run(New(10), Script).trace
            == [Event(Incremented, 11), Event(Incremented, 12), Event(Decremented, 11),
                Event(Decremented, 10), Event(Decremented, 9)]
  {
  }

  /** The driver script end to end: the callback logs 11, 12, 11, 10, 9. */
  lemma ScriptLog()
    ensures Observed(Run(New(10), Script).trace, ScriptListeners) == [11, 12, 11, 10, 9]
  {
    ScriptTrace();
    ScriptListenersOnceEach();
    var t := Run(New(10), Script).trace;
    ObservedOnceEach(t, ScriptListeners);
    var p := Payloads(t);
    assert |p| == 5;
    assert p[0] == 11 && p[1] == 12 && p[2] == 11 && p[3] == 10 && p[4] == 9;
    assert p == [11, 12, 11, 10, 9];
  }
}
