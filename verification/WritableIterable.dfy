/** The reader/writer rendezvous queue (packages/dubbo/src/protocol/async-iterable.ts, createWritableIterable). */
module WritableIterables {
  import opened Common
  import opened Errors

  /** An iterator result: a value, or the end. */
  datatype Payload<+T> = Value(v: T) | Finished

  /** The promise a write or close returned. */
  datatype Promise = Pending | Resolved | Rejected

  /** The promise a `next()` returned. */
  datatype Read<+T> = Waiting | Got(payload: Payload<T>) | ReadRejected

  /** A queue element: the payload and the index of its write's promise. */
  datatype Element<+T> = Element(payload: Payload<T>, promise: nat)

  /** What became of an accepted payload, and the index of its write's promise. */
  datatype Fate<+T> = Delivered(payload: Payload<T>, promise: nat) | Discarded(payload: Payload<T>, promise: nat)

  /** The argument of `throw`. A falsy value, such as `undefined`, is stored but never seen by `if (error)`. */
  datatype Thrown = Truthy(reason: Reason) | Falsy

  /** The queue, with every promise handed out so far and the history of payloads. */
  datatype State<T> = State(
    queue: seq<Element<T>>,
    queueResolve: Option<nat>,
    error: Option<Reason>,
    closed: bool,
    promises: seq<Promise>,
    results: seq<Read<T>>,
    accepted: seq<Payload<T>>,
    fates: seq<Fate<T>>)

  datatype Op<+T> = Write(v: T) | Close | Next | Throw(e: Thrown)

  function Initial<T>(): State<T> {
    State([], None, None, false, [], [], [], [])
  }

  /** `process(payload)`. */
  function Process<T>(s: State<T>, p: Payload<T>): State<T>
    requires s.queueResolve.Some? ==> s.queueResolve.value < |s.results|
  {
    if s.error.Some? then s.(promises := s.promises + [Rejected])
    else if s.queueResolve.Some? then
      s.(results := s.results[s.queueResolve.value := Got(p)], queueResolve := None,
        promises := s.promises + [Resolved],
         accepted := s.accepted + [p], fates := s.fates + [Delivered(p, |s.promises|)])
    else
      s.(queue := s.queue + [Element(p, |s.promises|)], promises := s.promises + [Pending],
        accepted := s.accepted + [p])
  }

  function Payloads<T>(q: seq<Element<T>>): seq<Payload<T>> {
    seq(|q|, i requires 0 <= i < |q| => q[i].payload)
  }

  function Discard<T>(q: seq<Element<T>>): seq<Fate<T>> {
    seq(|q|, i requires 0 <= i < |q| => Discarded(q[i].payload, q[i].promise))
  }

  /** Every element's promise rejected. */
  function RejectAll<T>(promises: seq<Promise>, q: seq<Element<T>>): (r: seq<Promise>)
    requires forall i | 0 <= i < |q| :: q[i].promise < |promises|
    ensures |r| == |promises|
    ensures forall n | 0 <= n < |r| ::
      r[n] == promises[n] || (r[n] == Rejected && exists i | 0 <= i < |q| :: q[i].promise == n)
  {
    if q == [] then promises
    else
      var n := |q| - 1;
      RejectAll(promises, q[..n])[q[n].promise := Rejected]
  }

  lemma RejectNothing<T>(promises: seq<Promise>)
    ensures RejectAll<T>(promises, []) == promises
  {
  }

  lemma RejectOneMore<T>(promises: seq<Promise>, q: seq<Element<T>>, last: Element<T>)
    requires forall i | 0 <= i < |q| :: q[i].promise < |promises|
    requires last.promise < |promises|
    ensures RejectAll(promises, q + [last]) == RejectAll(promises, q)[last.promise := Rejected]
  {
    assert (q + [last])[..|q|] == q;
  }

  predicate WellLinked<T>(s: State<T>) {
    && (s.queueResolve.Some? ==> s.queueResolve.value < |s.results|)
    && (forall i | 0 <= i < |s.queue| :: s.queue[i].promise < |s.promises|)
  }

  function Step<T>(s: State<T>, op: Op<T>): State<T>
    requires WellLinked(s)
  {
    match op
    case Write(v) =>
      if s.closed then s.(promises := s.promises + [Rejected]) else Process(s, Value(v))
    case Close =>
      if s.closed then s.(promises := s.promises + [Rejected]) else Process(s.(closed := true), Finished)
    case Next =>
      if s.error.Some? then s.(results := s.results + [ReadRejected])
      else if s.queue == [] then s.(queueResolve := Some(|s.results|), results := s.results + [Waiting])
      else
        s.(queue := s.queue[1..], promises := s.promises[s.queue[0].promise := Resolved],
           results := s.results + [Got(s.queue[0].payload)],
           fates := s.fates + [Delivered(s.queue[0].payload, s.queue[0].promise)])
    case Throw(e) =>
      s.(error := if e.Truthy? then Some(e.reason) else None, promises := RejectAll(s.promises, s.queue),
         fates := s.fates + Discard(s.queue), queue := [])
  }

  // ----- conservation

  function FatePayloads<T>(fates: seq<Fate<T>>): seq<Payload<T>> {
    seq(|fates|, i requires 0 <= i < |fates| => fates[i].payload)
  }

  function DeliveredOnly<T>(fates: seq<Fate<T>>): seq<Payload<T>> {
    if fates == [] then []
    else
      var f := fates[|fates| - 1];
      DeliveredOnly(fates[..|fates| - 1]) + (if f.Delivered? then [f.payload] else [])
  }

  function DiscardedOnly<T>(fates: seq<Fate<T>>): seq<Payload<T>> {
    if fates == [] then []
    else
      var f := fates[|fates| - 1];
      DiscardedOnly(fates[..|fates| - 1]) + (if f.Discarded? then [f.payload] else [])
  }

  /** What the readers got, in the order of their `next()` calls. */
  function GotOnly<T>(results: seq<Read<T>>): seq<Payload<T>> {
    if results == [] then []
    else
      var r := results[|results| - 1];
      GotOnly(results[..|results| - 1]) + (if r.Got? then [r.payload] else [])
  }

  /** The invariant of every run. */
  ghost predicate Invariant<T>(s: State<T>) {
    && WellLinked(s)
    // each accepted payload was delivered or discarded in order, or is still queued
    && s.accepted == FatePayloads(s.fates) + Payloads(s.queue)
    && GotOnly(s.results) == DeliveredOnly(s.fates)
    // a waiting reader means an empty queue, and is the last one that was not turned away
    && (s.queueResolve.Some? ==> s.queue == [] && s.results[s.queueResolve.value] == Waiting)
    && (s.queueResolve.Some? ==> forall j | s.queueResolve.value < j < |s.results| :: s.results[j] == ReadRejected)
    // queued writes are pending, each with a promise of its own
    && (forall i | 0 <= i < |s.queue| :: s.promises[s.queue[i].promise] == Pending)
    && (forall i, j | 0 <= i < j < |s.queue| :: s.queue[i].promise < s.queue[j].promise)
    // the end is accepted at most once, last
    && (forall i | 0 <= i < |s.accepted| :: s.accepted[i].Finished? ==> s.closed && i == |s.accepted| - 1)
    && (s.error.Some? ==> s.queue == [])
  }

  lemma GotAppended<T>(results: seq<Read<T>>, r: Read<T>)
    ensures GotOnly(results + [r]) == GotOnly(results) + if r.Got? then [r.payload] else []
  {
    assert (results + [r])[..|results|] == results;
  }

  lemma {:induction false} GotRejectedTail<T>(results: seq<Read<T>>, w: nat)
    requires w <= |results| && forall j | w <= j < |results| :: results[j] == ReadRejected
    ensures GotOnly(results) == GotOnly(results[..w])
    decreases |results|
  {
    if w < |results| {
      GotRejectedTail(results[..|results| - 1], w);
      assert results[..|results| - 1][..w] == results[..w];
    } else {
      assert results[..w] == results;
    }
  }

  /** Resolving the waiting reader is seen as the next thing the readers got. */
  lemma GotResolved<T>(results: seq<Read<T>>, w: nat, p: Payload<T>)
    requires w < |results| && results[w] == Waiting && forall j | w < j < |results| :: results[j] == ReadRejected
    ensures GotOnly(results[w := Got(p)]) == GotOnly(results) + [p]
  {
    var after := results[w := Got(p)];
    GotRejectedTail(results, w + 1);
    GotRejectedTail(after, w + 1);
    assert results[..w + 1] == results[..w] + [Waiting];
    assert after[..w + 1] == results[..w] + [Got(p)];
    GotAppended(results[..w], Waiting);
    GotAppended(results[..w], Got(p));
    assert GotOnly(results[..w]) + [] == GotOnly(results[..w]);
  }

  lemma FateAppended<T>(fates: seq<Fate<T>>, f: Fate<T>)
    ensures DeliveredOnly(fates + [f]) == DeliveredOnly(fates) + if f.Delivered? then [f.payload] else []
    ensures DiscardedOnly(fates + [f]) == DiscardedOnly(fates) + if f.Discarded? then [f.payload] else []
    ensures FatePayloads(fates + [f]) == FatePayloads(fates) + [f.payload]
  {
    assert (fates + [f])[..|fates|] == fates;
  }

  /** The payloads of a queue, seen from either end. */
  lemma QueueEnds<T>(q: seq<Element<T>>)
    requires q != []
    ensures var n := |q| - 1;
      && Payloads(q) == Payloads(q[..n]) + [q[n].payload]
      && Discard(q) == Discard(q[..n]) + [Discarded(q[n].payload, q[n].promise)]
      && Payloads(q) == [q[0].payload] + Payloads(q[1..])
  {
  }

  lemma {:induction false} QueueDiscarded<T>(fates: seq<Fate<T>>, q: seq<Element<T>>)
    ensures DeliveredOnly(fates + Discard(q)) == DeliveredOnly(fates)
    ensures DiscardedOnly(fates + Discard(q)) == DiscardedOnly(fates) + Payloads(q)
    ensures FatePayloads(fates + Discard(q)) == FatePayloads(fates) + Payloads(q)
    decreases |q|
  {
    hide DeliveredOnly, DiscardedOnly, FatePayloads;
    if q == [] {
      assert fates + Discard(q) == fates && DiscardedOnly(fates) + Payloads(q) == DiscardedOnly(fates);
      assert FatePayloads(fates) + Payloads(q) == FatePayloads(fates);
    } else {
      hide Payloads, Discard;
      var n := |q| - 1;
      var d := Discarded(q[n].payload, q[n].promise);
      QueueDiscarded(fates, q[..n]);
      QueueEnds(q);
      Associative(fates, Discard(q[..n]), [d]);
      FateAppended(fates + Discard(q[..n]), d);
      Associative(DiscardedOnly(fates), Payloads(q[..n]), [d.payload]);
      Associative(FatePayloads(fates), Payloads(q[..n]), [d.payload]);
    }
  }

  lemma ProcessKeepsInvariant<T>(s: State<T>, p: Payload<T>)
    requires Invariant(s) && (p.Finished? ==> s.closed)
    requires forall i | 0 <= i < |s.accepted| :: !s.accepted[i].Finished?
    ensures Invariant(Process(s, p))
  {
    hide GotOnly, DeliveredOnly;
    var t := Process(s, p);
    if s.error.None? && s.queueResolve.Some? {
      GotResolved(s.results, s.queueResolve.value, p);
      FateAppended(s.fates, Delivered(p, |s.promises|));
      assert t.accepted == FatePayloads(t.fates) + Payloads(t.queue);
    } else if s.error.None? {
      assert Payloads(t.queue) == Payloads(s.queue) + [p];
    }
  }

  lemma NextKeepsInvariant<T>(s: State<T>)
    requires Invariant(s)
    ensures Invariant(Step(s, Next))
  {
    hide GotOnly, DeliveredOnly, FatePayloads, Payloads;
    var t := Step(s, Next);
    if s.error.Some? {
      GotAppended(s.results, ReadRejected);
    } else if s.queue == [] {
      GotAppended(s.results, Waiting);
    } else {
      var p := s.queue[0].payload;
      GotAppended(s.results, Got(p));
      FateAppended(s.fates, Delivered(p, s.queue[0].promise));
      QueueEnds(s.queue);
      Associative(FatePayloads(s.fates), [p], Payloads(t.queue));
    }
  }

  lemma ThrowKeepsInvariant<T>(s: State<T>, e: Thrown)
    requires Invariant(s)
    ensures Invariant(Step(s, Throw(e)))
  {
    hide GotOnly, DeliveredOnly;
    QueueDiscarded(s.fates, s.queue);
  }

  lemma InvariantIsWellLinked<T>(s: State<T>)
    requires Invariant(s)
    ensures WellLinked(s)
  {
  }

  /** One operation keeps the invariant. */
  lemma StepKeepsInvariant<T>(s: State<T>, op: Op<T>)
    requires Invariant(s)
    ensures Invariant(Step(s, op))
  {
    hide GotOnly, DeliveredOnly, FatePayloads;
    match op
    case Write(v) => if !s.closed { ProcessKeepsInvariant(s, Value(v)); }
    case Close => if !s.closed { ProcessKeepsInvariant(s.(closed := true), Finished); }
    case Next => NextKeepsInvariant(s);
    case Throw(e) => ThrowKeepsInvariant(s, e);
  }

  /** A promise that was settled is never settled again, and a read result never changes. */
  lemma SettledOnce<T>(s: State<T>, op: Op<T>)
    requires Invariant(s)
    ensures var t := Step(s, op);
      && |t.promises| >= |s.promises| && |t.results| >= |s.results|
      && (forall i | 0 <= i < |s.promises| :: s.promises[i] != Pending ==> t.promises[i] == s.promises[i])
      && (forall i | 0 <= i < |s.results| :: s.results[i] != Waiting ==> t.results[i] == s.results[i])
  {
  }

  /** The run of a list of operations. */
  ghost function Run<T>(s: State<T>, ops: seq<Op<T>>): (r: State<T>)
    requires Invariant(s)
    ensures Invariant(r)
    decreases |ops|
  {
    if ops == [] then s
    else
      StepKeepsInvariant(s, ops[0]);
      Run(Step(s, ops[0]), ops[1..])
  }

  // ----- what every call does

  /** A write or close is accepted iff the iterable is open and no error is stored. It is then delivered iff a
      reader waits, and queued last otherwise; nothing else changes. */
  lemma WriteDoes<T>(s: State<T>, op: Op<T>, p: Payload<T>)
    requires WellLinked(s) && ((op == Close && p == Finished) || (op.Write? && p == Value(op.v)))
    ensures var t, n := Step(s, op), |s.promises|;
      var accepted := !s.closed && s.error == None;
      && t.accepted == (if accepted then s.accepted + [p] else s.accepted)
      && t.fates == (if accepted && s.queueResolve.Some? then s.fates + [Delivered(p, n)] else s.fates)
      && t.queue == (if accepted && s.queueResolve.None? then s.queue + [Element(p, n)] else s.queue)
      && t.promises == s.promises +
           [if !accepted then Rejected else if s.queueResolve.Some? then Resolved else Pending]
      && t.results ==
           (if accepted && s.queueResolve.Some? then s.results[s.queueResolve.value := Got(p)] else s.results)
      && t.queueResolve == (if accepted then None else s.queueResolve)
      && t.error == s.error && (t.closed <==> s.closed || op == Close)
  {
  }

  /** A read is rejected iff an error is stored, gets the oldest queued payload iff there is one, and waits
      otherwise. */
  lemma NextDoes<T>(s: State<T>)
    requires WellLinked(s)
    ensures var t := Step(s, Next);
      && t.results == s.results + [
           if s.error.Some? then ReadRejected else if |s.queue| > 0 then Got(s.queue[0].payload) else Waiting]
      && (if s.error == None && |s.queue| > 0 then
            && s.queue == [s.queue[0]] + t.queue
            && t.fates == s.fates + [Delivered(s.queue[0].payload, s.queue[0].promise)]
            && t.promises == s.promises[s.queue[0].promise := Resolved]
          else t.queue == s.queue && t.fates == s.fates && t.promises == s.promises)
      && t.queueResolve == (if s.error == None && |s.queue| == 0 then Some(|s.results|) else s.queueResolve)
      && t.accepted == s.accepted && t.error == s.error && t.closed == s.closed
  {
  }

  /** A throw stores its argument, `undefined` included, empties the queue and rejects the writes in it. */
  lemma ThrowDoes<T>(s: State<T>, e: Thrown)
    requires WellLinked(s)
    ensures var t := Step(s, Throw(e));
      && t.error == (if e.Truthy? then Some(e.reason) else None) && t.queue == []
      && |t.fates| == |s.fates| + |s.queue| && t.fates[..|s.fates|] == s.fates
      && (forall i | 0 <= i < |s.queue| ::
            t.fates[|s.fates| + i] == Discarded(s.queue[i].payload, s.queue[i].promise))
      && |t.promises| == |s.promises|
      && (forall n | 0 <= n < |s.promises| ::
            t.promises[n] == if Queued(s.queue, n) then Rejected else s.promises[n])
      && t.results == s.results && t.accepted == s.accepted && t.closed == s.closed && t.queueResolve == s.queueResolve
  {
    hide RejectAll;
    RejectsAll(s.promises, s.queue);
  }

  /** A close is among the calls. */
  predicate ClosedBy<T>(ops: seq<Op<T>>) {
    exists i | 0 <= i < |ops| :: ops[i].Close?
  }

  /** The last throw among the calls was truthy. */
  predicate FailedBy<T>(ops: seq<Op<T>>) {
    exists i | 0 <= i < |ops| :: ops[i].Throw? && ops[i].e.Truthy? && forall j | i < j < |ops| :: !ops[j].Throw?
  }

  lemma ClosedByStep<T>(ops: seq<Op<T>>, op: Op<T>)
    ensures ClosedBy(ops + [op]) <==> ClosedBy(ops) || op.Close?
    ensures FailedBy(ops + [op]) <==> (if op.Throw? then op.e.Truthy? else FailedBy(ops))
  {
    var all := ops + [op];
    assert all[|ops|] == op && forall i | 0 <= i < |ops| :: all[i] == ops[i];
    if FailedBy(ops) && !op.Throw? {
      var i :| 0 <= i < |ops| && ops[i].Throw? && ops[i].e.Truthy? && forall j | i < j < |ops| :: !ops[j].Throw?;
      assert all[i].Throw? && all[i].e.Truthy? && forall j | i < j < |all| :: !all[j].Throw?;
    }
    if FailedBy(all) {
      var i :| 0 <= i < |all| && all[i].Throw? && all[i].e.Truthy? && forall j | i < j < |all| :: !all[j].Throw?;
      assert i < |ops| ==> ops[i].Throw? && ops[i].e.Truthy? && forall j | i < j < |ops| :: all[j] == ops[j];
    }
  }

  lemma {:induction false} RunSnoc<T>(s: State<T>, ops: seq<Op<T>>, op: Op<T>)
    requires Invariant(s)
    ensures WellLinked(Run(s, ops)) && Run(s, ops + [op]) == Step(Run(s, ops), op)
    decreases |ops|
  {
    hide Invariant, Step;
    InvariantIsWellLinked(s);
    if ops == [] {
      InvariantIsWellLinked(Run(s, ops));
      assert (ops + [op])[1..] == [];
    } else {
      StepKeepsInvariant(s, ops[0]);
      RunSnoc(Step(s, ops[0]), ops[1..], op);
      assert (ops + [op])[1..] == ops[1..] + [op];
    }
  }

  /** What the calls so far say about the state. */
  lemma {:induction false} RunTells<T>(ops: seq<Op<T>>)
    ensures Invariant(Initial<T>())
    ensures Run(Initial<T>(), ops).closed <==> ClosedBy(ops)
    ensures Run(Initial<T>(), ops).error.Some? <==> FailedBy(ops)
    decreases |ops|
  {
    hide Invariant, Initial, ClosedBy, FailedBy;
    NothingYet<T>();
    if ops == [] {
      StartsOpen<T>();
    } else {
      var init, op := ops[..|ops| - 1], ops[|ops| - 1];
      assert ops == init + [op];
      RunTells(init);
      RunSnoc(Initial<T>(), init, op);
      ClosedByStep(init, op);
    }
  }

  lemma StartsOpen<T>()
    ensures !Initial<T>().closed && Initial<T>().error == None && !ClosedBy<T>([]) && !FailedBy<T>([])
  {
  }

  /** Over whole runs: a write or close is refused iff a close came before it or the last throw before it was
      truthy; and a read is rejected iff the last throw before it was truthy. */
  lemma RefusedExactly<T>(ops: seq<Op<T>>, op: Op<T>)
    ensures Invariant(Initial<T>())
    ensures var s, t := Run(Initial<T>(), ops), Run(Initial<T>(), ops + [op]);
      && (op.Write? || op.Close? ==>
            |t.promises| == |s.promises| + 1 && |t.accepted| <= |s.accepted| + 1
            && (t.promises[|s.promises|] == Rejected <==> ClosedBy(ops) || FailedBy(ops))
            && (t.accepted == s.accepted <==> ClosedBy(ops) || FailedBy(ops)))
      && (op.Next? ==>
            |t.results| == |s.results| + 1 && (t.results[|s.results|] == ReadRejected <==> FailedBy(ops)))
  {
    hide Invariant, Run, Initial, Step, ClosedBy, FailedBy;
    NothingYet<T>();
    RunTells(ops);
    RunSnoc(Initial<T>(), ops, op);
    var s := Run(Initial<T>(), ops);
    match op
    case Write(v) => WriteDoes(s, op, Value(v));
    case Close => WriteDoes(s, op, Finished);
    case Next => NextDoes(s);
    case Throw(_) =>
  }

  // ----- what a promise tells

  ghost predicate Queued<T>(q: seq<Element<T>>, n: nat) {
    exists i | 0 <= i < |q| :: q[i].promise == n
  }

  ghost predicate DeliveredAs<T>(fates: seq<Fate<T>>, n: nat) {
    exists i | 0 <= i < |fates| :: fates[i].Delivered? && fates[i].promise == n
  }

  /** `written` are the payloads of all calls of write and close: every fate and every queued element is
      the payload of its own call, and the call's promise says what became of it. */
  ghost predicate Accounted<T>(s: State<T>, written: seq<Payload<T>>) {
    && |written| == |s.promises|
    && (forall i | 0 <= i < |s.queue| ::
          s.queue[i].promise < |written| && s.queue[i].payload == written[s.queue[i].promise])
    && (forall i | 0 <= i < |s.fates| ::
          s.fates[i].promise < |written| && s.fates[i].payload == written[s.fates[i].promise])
    && (forall i | 0 <= i < |s.fates| ::
          s.promises[s.fates[i].promise] == if s.fates[i].Delivered? then Resolved else Rejected)
    && (forall n | 0 <= n < |written| && s.promises[n] == Pending :: Queued(s.queue, n))
    && (forall n | 0 <= n < |written| && s.promises[n] == Resolved :: DeliveredAs(s.fates, n))
  }

  /** The payload an operation tries to write. */
  function WrittenBy<T>(op: Op<T>): seq<Payload<T>> {
    match op
    case Write(v) => [Value(v)]
    case Close => [Finished]
    case _ => []
  }

  function Written<T>(ops: seq<Op<T>>): seq<Payload<T>> {
    if ops == [] then [] else WrittenBy(ops[0]) + Written(ops[1..])
  }

  lemma MoreQueued<T>(q: seq<Element<T>>, r: seq<Element<T>>)
    ensures forall n: nat | Queued(q, n) || Queued(r, n) :: Queued(q + r, n)
  {
    forall n: nat | Queued(q, n) || Queued(r, n) ensures Queued(q + r, n) {
      if i :| 0 <= i < |q| && q[i].promise == n {
        assert (q + r)[i].promise == n;
      } else {
        var i :| 0 <= i < |r| && r[i].promise == n;
        assert (q + r)[|q| + i].promise == n;
      }
    }
  }

  lemma MoreDelivered<T>(f: seq<Fate<T>>, g: seq<Fate<T>>)
    ensures forall n: nat | DeliveredAs(f, n) || DeliveredAs(g, n) :: DeliveredAs(f + g, n)
  {
    forall n: nat | DeliveredAs(f, n) || DeliveredAs(g, n) ensures DeliveredAs(f + g, n) {
      if i :| 0 <= i < |f| && f[i].Delivered? && f[i].promise == n {
        assert (f + g)[i].Delivered? && (f + g)[i].promise == n;
      } else {
        var i :| 0 <= i < |g| && g[i].Delivered? && g[i].promise == n;
        assert (f + g)[|f| + i].Delivered? && (f + g)[|f| + i].promise == n;
      }
    }
  }

  lemma ProcessAccounts<T>(s: State<T>, p: Payload<T>, written: seq<Payload<T>>)
    requires WellLinked(s) && Accounted(s, written)
    ensures Accounted(Process(s, p), written + [p])
  {
    hide Queued, DeliveredAs;
    var n := |s.promises|;
    MoreQueued(s.queue, [Element(p, n)]);
    MoreDelivered(s.fates, [Delivered(p, n)]);
    assert Queued([Element(p, n)], n) by {
      OwnPromise(p, n);
    }
    assert DeliveredAs([Delivered(p, n)], n) by {
      OwnPromise(p, n);
    }
  }

  lemma OwnPromise<T>(p: Payload<T>, n: nat)
    ensures Queued([Element(p, n)], n) && DeliveredAs([Delivered(p, n)], n)
  {
    assert [Element(p, n)][0].promise == n && [Delivered(p, n)][0].Delivered? && [Delivered(p, n)][0].promise == n;
  }

  lemma RefusalAccounts<T>(s: State<T>, p: Payload<T>, written: seq<Payload<T>>)
    requires Accounted(s, written)
    ensures Accounted(s.(promises := s.promises + [Rejected]), written + [p])
  {
    hide Queued, DeliveredAs;
  }

  lemma NextAccounts<T>(s: State<T>, written: seq<Payload<T>>)
    requires Invariant(s) && Accounted(s, written)
    ensures Accounted(Step(s, Next), written)
  {
    hide GotOnly, DeliveredOnly, FatePayloads, Payloads, Queued, DeliveredAs;
    if s.error.None? && s.queue != [] {
      var t := Step(s, Next);
      var e := s.queue[0];
      FatesKeep(s, e.promise);
      MoreDelivered(s.fates, [Delivered(e.payload, e.promise)]);
      OwnPromise(e.payload, e.promise);
      forall n | 0 <= n < |written| && t.promises[n] == Pending ensures Queued(t.queue, n) {
        QueuedTail(s.queue, n);
      }
    }
  }

  /** A pending promise belongs to no fate. */
  lemma FatesKeep<T>(s: State<T>, n: nat)
    requires |s.promises| > n && s.promises[n] == Pending
    requires forall i | 0 <= i < |s.fates| :: s.fates[i].promise < |s.promises|
    requires forall i | 0 <= i < |s.fates| ::
      s.promises[s.fates[i].promise] == if s.fates[i].Delivered? then Resolved else Rejected
    ensures forall i | 0 <= i < |s.fates| :: s.fates[i].promise != n
  {
  }

  lemma QueuedTail<T>(q: seq<Element<T>>, n: nat)
    requires Queued(q, n) && q[0].promise != n
    ensures Queued(q[1..], n)
  {
    var i :| 0 <= i < |q| && q[i].promise == n;
    assert q[1..][i - 1].promise == n;
  }

  lemma {:induction false} RejectsAll<T>(promises: seq<Promise>, q: seq<Element<T>>)
    requires forall i | 0 <= i < |q| :: q[i].promise < |promises|
    ensures forall i | 0 <= i < |q| :: RejectAll(promises, q)[q[i].promise] == Rejected
    decreases |q|
  {
    if q != [] {
      RejectsAll(promises, q[..|q| - 1]);
    }
  }

  /** What rejecting a queue of pending promises leaves: no other promise changes, none is pending twice. */
  lemma RejectsOnlyQueue<T>(promises: seq<Promise>, q: seq<Element<T>>)
    requires forall i | 0 <= i < |q| :: q[i].promise < |promises| && promises[q[i].promise] == Pending
    ensures var r := RejectAll(promises, q);
      && (forall n | 0 <= n < |r| && promises[n] != Pending :: r[n] == promises[n])
      && (forall n | 0 <= n < |r| && Queued(q, n) :: r[n] == Rejected)
      && (forall n | 0 <= n < |r| && !Queued(q, n) :: r[n] == promises[n])
  {
    hide RejectAll;
    RejectsAll(promises, q);
  }

  lemma ThrowAccounts<T>(s: State<T>, e: Thrown, written: seq<Payload<T>>)
    requires Invariant(s) && Accounted(s, written)
    ensures Accounted(Step(s, Throw(e)), written)
  {
    hide GotOnly, DeliveredOnly, FatePayloads, Payloads, RejectAll, Queued, DeliveredAs;
    var t := Step(s, Throw(e));
    MoreDelivered(s.fates, Discard(s.queue));
    RejectsOnlyQueue(s.promises, s.queue);
    RejectsAll(s.promises, s.queue);
    assert forall n | 0 <= n < |written| :: t.promises[n] != Pending;
  }

  lemma StepAccounts<T>(s: State<T>, op: Op<T>, written: seq<Payload<T>>)
    requires Invariant(s) && Accounted(s, written)
    ensures Accounted(Step(s, op), written + WrittenBy(op))
  {
    hide Invariant, GotOnly, DeliveredOnly, FatePayloads, Payloads, Queued, DeliveredAs, Process;
    InvariantIsWellLinked(s);
    match op
    case Write(v) =>
      if s.closed { RefusalAccounts(s, Value(v), written); } else { ProcessAccounts(s, Value(v), written); }
    case Close =>
      if s.closed { RefusalAccounts(s, Finished, written); }
        else { ProcessAccounts(s.(closed := true), Finished, written); }
    case Next =>
      NextAccounts(s, written);
      assert written + [] == written;
    case Throw(e) =>
      ThrowAccounts(s, e, written);
      assert written + [] == written;
  }

  lemma {:induction false} RunAccounts<T>(s: State<T>, ops: seq<Op<T>>, written: seq<Payload<T>>)
    requires Invariant(s) && Accounted(s, written)
    ensures Accounted(Run(s, ops), written + Written(ops))
    decreases |ops|
  {
    hide Invariant, Accounted, Step;
    if ops == [] {
      assert written + [] == written;
    } else {
      InvariantIsWellLinked(s);
      StepKeepsInvariant(s, ops[0]);
      StepAccounts(s, ops[0], written);
      RunAccounts(Step(s, ops[0]), ops[1..], written + WrittenBy(ops[0]));
      Associative(written, WrittenBy(ops[0]), Written(ops[1..]));
    }
  }

  lemma NothingYet<T>()
    ensures Invariant(Initial<T>()) && Accounted(Initial<T>(), [])
  {
  }

  lemma WhoseFate<T>(s: State<T>, written: seq<Payload<T>>, n: nat)
    requires Accounted(s, written) && n < |written| && DeliveredAs(s.fates, n)
    ensures Delivered(written[n], n) in s.fates
  {
    var i :| 0 <= i < |s.fates| && s.fates[i].Delivered? && s.fates[i].promise == n;
    assert s.fates[i] == Delivered(written[n], n);
  }

  lemma WhoseElement<T>(s: State<T>, written: seq<Payload<T>>, n: nat)
    requires Accounted(s, written) && n < |written| && Queued(s.queue, n)
    ensures Element(written[n], n) in s.queue
  {
    var i :| 0 <= i < |s.queue| && s.queue[i].promise == n;
    assert s.queue[i] == Element(written[n], n);
  }

  lemma PromiseTells<T>(s: State<T>, written: seq<Payload<T>>, n: nat)
    requires Invariant(s) && Accounted(s, written) && n < |written|
    ensures |s.promises| == |written|
    ensures s.promises[n] == Resolved <==> Delivered(written[n], n) in s.fates
    ensures s.promises[n] == Pending <==> Element(written[n], n) in s.queue
  {
    hide GotOnly, DeliveredOnly, FatePayloads, Payloads, Queued, DeliveredAs;
    if s.promises[n] == Resolved {
      WhoseFate(s, written, n);
    }
    if s.promises[n] == Pending {
      WhoseElement(s, written, n);
    }
  }

  /** Every promise tells its caller the truth: in every run the promise of the n-th write or close is
      resolved iff that call's payload was delivered, pending iff it is queued, and rejected iff it was
      refused or discarded. */
  lemma PromisesTellFate<T>(ops: seq<Op<T>>, n: nat)
    requires n < |Written(ops)|
    ensures Invariant(Initial<T>())
    ensures var s := Run(Initial<T>(), ops);
      && |s.promises| == |Written(ops)|
      && (s.promises[n] == Resolved <==> Delivered(Written(ops)[n], n) in s.fates)
      && (s.promises[n] == Pending <==> Element(Written(ops)[n], n) in s.queue)
  {
    hide Run, Written, Initial, Invariant, Accounted;
    NothingYet<T>();
    RunAccounts(Initial<T>(), ops, []);
    assert [] + Written(ops) == Written(ops);
    PromiseTells(Run(Initial<T>(), ops), Written(ops), n);
  }

  // ----- order

  predicate NoFalsyThrow<T>(ops: seq<Op<T>>) {
    forall i | 0 <= i < |ops| :: ops[i].Throw? ==> ops[i].e.Truthy?
  }

  predicate HasDiscarded<T>(fates: seq<Fate<T>>) {
    exists i | 0 <= i < |fates| :: fates[i].Discarded?
  }

  /** Payloads keep the order in which they were accepted: none is delivered after one was discarded. */
  predicate InOrder<T>(fates: seq<Fate<T>>) {
    forall i, j | 0 <= i < j < |fates| && fates[i].Discarded? :: !fates[j].Delivered?
  }

  /** The calls that hand a payload to a reader. */
  predicate Delivers<T>(s: State<T>, op: Op<T>) {
    match op
    case Write(_) => !s.closed && s.error.None? && s.queueResolve.Some?
    case Close => !s.closed && s.error.None? && s.queueResolve.Some?
    case Next => s.error.None? && s.queue != []
    case Throw(_) => false
  }

  lemma OneMoreFate<T>(fates: seq<Fate<T>>, f: Fate<T>)
    ensures InOrder(fates + [f]) <==> InOrder(fates) && !(HasDiscarded(fates) && f.Delivered?)
    ensures HasDiscarded(fates + [f]) <==> HasDiscarded(fates) || f.Discarded?
  {
    var after := fates + [f];
    assert forall i | 0 <= i < |fates| :: after[i] == fates[i];
    assert after[|fates|] == f;
  }

  lemma MoreDiscarded<T>(fates: seq<Fate<T>>, q: seq<Element<T>>)
    ensures InOrder(fates + Discard(q)) <==> InOrder(fates)
    ensures HasDiscarded(fates + Discard(q)) <==> HasDiscarded(fates) || q != []
  {
    var after := fates + Discard(q);
    assert forall i | 0 <= i < |fates| :: after[i] == fates[i];
    assert forall i | |fates| <= i < |after| :: after[i].Discarded?;
    if q != [] {
      assert after[|fates|].Discarded?;
    }
  }

  /** The order survives a call iff the call does not deliver a payload after one was discarded. */
  lemma CallKeepsOrder<T>(s: State<T>, op: Op<T>)
    requires WellLinked(s)
    ensures InOrder(Step(s, op).fates) <==> InOrder(s.fates) && !(HasDiscarded(s.fates) && Delivers(s, op))
    ensures HasDiscarded(Step(s, op).fates) <==> HasDiscarded(s.fates) || (op.Throw? && s.queue != [])
  {
    hide InOrder, HasDiscarded, RejectAll;
    match op
    case Write(v) => OneMoreFate(s.fates, Delivered(Value(v), |s.promises|));
    case Close => OneMoreFate(s.fates, Delivered(Finished, |s.promises|));
    case Next =>
      if s.queue != [] {
        OneMoreFate(s.fates, Delivered(s.queue[0].payload, s.queue[0].promise));
      }
    case Throw(_) => MoreDiscarded(s.fates, s.queue);
  }

  /** No call of a run delivers a payload after one was discarded. */
  ghost predicate NeverDeliversLate<T>(s: State<T>, ops: seq<Op<T>>)
    requires Invariant(s)
    decreases |ops|
  {
    ops == [] ||
    (!(HasDiscarded(s.fates) && Delivers(s, ops[0]))
      && (StepKeepsInvariant(s, ops[0]); NeverDeliversLate(Step(s, ops[0]), ops[1..])))
  }

  /** The order of a whole run, exactly. */
  lemma {:induction false} RunKeepsOrder<T>(s: State<T>, ops: seq<Op<T>>)
    requires Invariant(s)
    ensures InOrder(Run(s, ops).fates) <==> InOrder(s.fates) && NeverDeliversLate(s, ops)
    decreases |ops|
  {
    hide Invariant, InOrder, HasDiscarded, Delivers, Step;
    if ops != [] {
      InvariantIsWellLinked(s);
      StepKeepsInvariant(s, ops[0]);
      CallKeepsOrder(s, ops[0]);
      RunKeepsOrder(Step(s, ops[0]), ops[1..]);
    }
  }

  lemma {:induction false} OrderedFates<T>(fates: seq<Fate<T>>)
    requires InOrder(fates)
    ensures FatePayloads(fates) == DeliveredOnly(fates) + DiscardedOnly(fates)
    ensures !HasDiscarded(fates) ==> DiscardedOnly(fates) == []
  {
    hide FatePayloads;
    if fates == [] {
      NoFates<T>();
    } else {
      var init, f := fates[..|fates| - 1], fates[|fates| - 1];
      assert fates == init + [f];
      OneMoreFate(init, f);
      OrderedFates(init);
      FateAppended(init, f);
      Associative(DeliveredOnly(init), DiscardedOnly(init), [f.payload]);
      assert f.Delivered? ==> DeliveredOnly(init) + [] == DeliveredOnly(init);
    }
  }

  lemma NoFates<T>()
    ensures FatePayloads<T>([]) == [] && DeliveredOnly<T>([]) == [] && DiscardedOnly<T>([]) == []
  {
  }

  /** Conservation: in every run that keeps the order, the accepted payloads are what the readers got, then
      what a throw discarded, then what is queued, in order; and a run without a falsy throw keeps it. */
  lemma Conservation<T>(ops: seq<Op<T>>)
    ensures Invariant(Initial<T>())
    ensures var s := Run(Initial<T>(), ops);
      && (NeverDeliversLate(Initial<T>(), ops) ==>
            s.accepted == GotOnly(s.results) + DiscardedOnly(s.fates) + Payloads(s.queue))
      && (NoFalsyThrow(ops) ==> NeverDeliversLate(Initial<T>(), ops))
  {
    hide Run, NeverDeliversLate, GotOnly, DeliveredOnly, DiscardedOnly, FatePayloads, Payloads;
    NothingYet<T>();
    RunKeepsOrder(Initial<T>(), ops);
    var s := Run(Initial<T>(), ops);
    if NeverDeliversLate(Initial<T>(), ops) {
      OrderedFates(s.fates);
    }
    if NoFalsyThrow(ops) {
      OrderlyRun(Initial<T>(), ops);
    }
  }

  /** Nothing can be delivered late: nothing was discarded, an error is stored, or the iterable is closed
      and drained. */
  predicate Orderly<T>(s: State<T>) {
    InOrder(s.fates) && (!HasDiscarded(s.fates) || s.error.Some? || (s.closed && s.queue == []))
  }

  lemma {:induction false} OrderlyRun<T>(s: State<T>, ops: seq<Op<T>>)
    requires Invariant(s) && Orderly(s) && NoFalsyThrow(ops)
    ensures InOrder(Run(s, ops).fates)
    decreases |ops|
  {
    hide Invariant, InOrder, HasDiscarded;
    if ops != [] {
      InvariantIsWellLinked(s);
      ErrorMeansDrained(s);
      StepKeepsInvariant(s, ops[0]);
      CallKeepsOrder(s, ops[0]);
      OrderlyRun(Step(s, ops[0]), ops[1..]);
    }
  }

  lemma ErrorMeansDrained<T>(s: State<T>)
    requires Invariant(s)
    ensures s.error.Some? || s.queueResolve.Some? ==> s.queue == []
  {
  }

  /** When `throw(e)` leaves the order intact whatever is called afterwards (short of another falsy throw):
      iff `e` is truthy, or nothing is queued, or the iterable is closed. */
  lemma ThrowKeepsOrder<T>(s: State<T>, e: Thrown)
    requires Invariant(s) && !HasDiscarded(s.fates)
    ensures Invariant(Step(s, Throw(e)))
    ensures (forall ops: seq<Op<T>> | NoFalsyThrow(ops) :: InOrder(Run(Step(s, Throw(e)), ops).fates))
      <==> e.Truthy? || s.queue == [] || s.closed
  {
    hide Invariant, Run, InOrder, HasDiscarded;
    InvariantIsWellLinked(s);
    StepKeepsInvariant(s, Throw(e));
    CallKeepsOrder(s, Throw(e));
    NothingDiscarded(s.fates);
    var t := Step(s, Throw(e));
    if e.Truthy? || s.queue == [] || s.closed {
      forall ops: seq<Op<T>> | NoFalsyThrow(ops) ensures InOrder(Run(t, ops).fates) {
        OrderlyRun(t, ops);
      }
    } else {
      var v := LateDelivery(s, e);
      var ops := [Write(v), Next];
      assert NoFalsyThrow(ops) && !InOrder(Run(t, ops).fates);
    }
  }

  lemma NothingDiscarded<T>(fates: seq<Fate<T>>)
    requires !HasDiscarded(fates)
    ensures InOrder(fates)
  {
  }

  /** After a falsy throw that discards, a value written and read is delivered late. */
  lemma LateDelivery<T>(s: State<T>, e: Thrown) returns (v: T)
    requires Invariant(s) && e.Falsy? && s.queue != [] && !s.closed
    ensures Invariant(Step(s, Throw(e))) && !InOrder(Run(Step(s, Throw(e)), [Write(v), Next]).fates)
  {
    hide InOrder, HasDiscarded, GotOnly, DeliveredOnly, FatePayloads;
    v := QueuedValue(s);
    var t := Step(s, Throw(e));
    StepKeepsInvariant(s, Throw(e));
    CallKeepsOrder(s, Throw(e));
    var ops := [Write(v), Next];
    assert ops[1..] == [Next] && ops[1..][1..] == [];
    RunKeepsOrder(t, ops);
    LateCalls(t, v);
  }

  /** An open queue holds values only. */
  lemma QueuedValue<T>(s: State<T>) returns (v: T)
    requires Invariant(s) && s.queue != [] && !s.closed
    ensures s.queueResolve.None?
  {
    var n := |s.fates|;
    assert s.accepted[n] == Payloads(s.queue)[0] == s.queue[0].payload;
    assert s.queue[0].payload.Value?;
    v := s.queue[0].payload.v;
  }

  lemma LateCalls<T>(t: State<T>, v: T)
    requires Invariant(t) && HasDiscarded(t.fates) && t.error.None? && t.queue == [] && !t.closed
      && t.queueResolve.None?
    ensures !NeverDeliversLate(t, [Write(v), Next])
  {
    hide Invariant, HasDiscarded;
    var ops := [Write(v), Next];
    assert ops[1..] == [Next];
    InvariantIsWellLinked(t);
    StepKeepsInvariant(t, Write(v));
    var u := Step(t, Write(v));
    assert u.queue != [] && u.fates == t.fates && u.error.None?;
    assert !NeverDeliversLate(u, [Next]);
  }

  /** With an error stored, an operation other than a falsy throw only answers with refusals. */
  lemma RefusedStep<T>(s: State<T>, op: Op<T>)
    requires WellLinked(s) && s.error.Some? && s.queue == [] && !(op.Throw? && op.e.Falsy?)
    ensures var t := Step(s, op);
      t.error.Some? && t.queue == [] && t.accepted == s.accepted && t.fates == s.fates
  {
    assert s.fates + Discard(s.queue) == s.fates;
  }

  /** Once a truthy error is thrown nothing is accepted, queued or delivered, whatever is called, until a
      falsy value is thrown. */
  lemma {:induction false} NothingAfterThrow<T>(s: State<T>, ops: seq<Op<T>>)
    requires Invariant(s) && s.error.Some? && NoFalsyThrow(ops)
    ensures var t := Run(s, ops);
      t.error.Some? && t.queue == [] && t.accepted == s.accepted && t.fates == s.fates
    decreases |ops|
  {
    hide Step, GotOnly, DeliveredOnly, FatePayloads, Payloads;
    if ops != [] {
      var t := Step(s, ops[0]);
      StepKeepsInvariant(s, ops[0]);
      RefusedStep(s, ops[0]);
      NothingAfterThrow(t, ops[1..]);
    }
  }

  /** Refusal is exact too: after `throw(e)` a write to an open iterable is refused iff `e` is truthy. */
  lemma WriteAfterThrow<T>(s: State<T>, e: Thrown, v: T)
    requires Invariant(s) && !s.closed
    ensures WellLinked(Step(s, Throw(e)))
    ensures Step(Step(s, Throw(e)), Write(v)).accepted == s.accepted <==> e.Truthy?
  {
    assert s.accepted + [Value(v)] != s.accepted;
  }

  lemma NothingGot<T>()
    ensures GotOnly<T>([]) == []
  {
  }

  lemma FirstGot(results: seq<Read<int>>, discarded: seq<Payload<int>>, queued: seq<Payload<int>>)
    requires GotOnly(results) == [Value(2)]
    ensures (GotOnly(results) + discarded + queued)[0] == Value(2)
  {
  }

  /** With a falsy throw the order breaks: write 1, throw `undefined`, write 2, read. The reader gets the
      payload accepted second; the first was discarded before it. */
  lemma FalsyThrowReorders()
    ensures var s1 := State([Element(Value(1), 0)], None, None, false, [Pending], [], [Value(1)], []);
      var s2 := State([], None, None, false, [Rejected], [], [Value(1)], [Discarded(Value(1), 0)]);
      var s3 := State([Element(Value(2), 1)], None, None, false, [Rejected, Pending], [], [Value(1), Value(2)],
        [Discarded(Value(1), 0)]);
      var s4 := State([], None, None, false, [Rejected, Resolved], [Got(Value(2))], [Value(1), Value(2)],
                      [Discarded(Value(1), 0), Delivered(Value(2), 1)]);
      && Step(Initial<int>(), Write(1)) == s1 && Step(s1, Throw(Falsy)) == s2 && Step(s2, Write(2)) == s3
        && Step(s3, Next) == s4
      && s4.accepted != GotOnly(s4.results) + DiscardedOnly(s4.fates) + Payloads(s4.queue)
  {
    hide RejectAll, GotOnly, DiscardedOnly, Payloads;
    var q := [Element(Value(1), 0)];
    RejectNothing<int>([Pending]);
    RejectOneMore([Pending], [], q[0]);
    assert [] + [q[0]] == q && [Pending][0 := Rejected] == [Rejected];
    var results := [Got(Value(2))];
    GotAppended([], results[0]);
    NothingGot<int>();
    assert [] + [results[0]] == results && [] + [Value(2)] == [Value(2)];
    FirstGot(results, DiscardedOnly([Discarded(Value(1), 0), Delivered(Value(2), 1)]), Payloads<int>([]));
  }

  // ----- the object

  /** `promises` and `results` are the promises handed out; `accepted` and `fates` are history. */
  class WritableIterable<T> {
    var queue: seq<Element<T>>
    var queueResolve: Option<nat>
    var error: Option<Reason>
    var closed: bool
    var promises: seq<Promise>
    var results: seq<Read<T>>
    ghost var accepted: seq<Payload<T>>
    ghost var fates: seq<Fate<T>>

    ghost function View(): State<T>
      reads this
    {
      State(queue, queueResolve, error, closed, promises, results, accepted, fates)
    }

    constructor ()
      ensures View() == Initial() && Invariant(View())
    {
      queue, queueResolve, error, closed, promises, results, accepted, fates := [], None, None, false, [], [], [], [];
    }

    method ProcessPayload(p: Payload<T>)
      requires WellLinked(View())
      modifies this
      ensures View() == Process(old(View()), p)
    {
      if error.Some? {
        promises := promises + [Rejected];
        return;
      }
      accepted := accepted + [p];
      if queueResolve.Some? {
        results := results[queueResolve.value := Got(p)];
        queueResolve := None;
        fates := fates + [Delivered(p, |promises|)];
        promises := promises + [Resolved];
        return;
      }
      var elem := Element(p, |promises|);
      promises := promises + [Pending];
      queue := queue + [elem];
    }

    method WriteValue(v: T)
      requires Invariant(View())
      modifies this
      ensures View() == Step(old(View()), Write(v)) && Invariant(View())
    {
      hide Invariant, GotOnly, DeliveredOnly, FatePayloads, Payloads;
      StepKeepsInvariant(View(), Write(v));
      InvariantIsWellLinked(View());
      if closed {
        promises := promises + [Rejected];
        return;
      }
      ProcessPayload(Value(v));
    }

    method CloseQueue()
      requires Invariant(View())
      modifies this
      ensures View() == Step(old(View()), Close) && Invariant(View())
    {
      hide Invariant, GotOnly, DeliveredOnly, FatePayloads, Payloads;
      StepKeepsInvariant(View(), Close);
      InvariantIsWellLinked(View());
      if closed {
        promises := promises + [Rejected];
        return;
      }
      closed := true;
      ProcessPayload(Finished);
    }

    method ReadNext()
      requires Invariant(View())
      modifies this
      ensures View() == Step(old(View()), Next) && Invariant(View())
    {
      hide Invariant, GotOnly, DeliveredOnly, FatePayloads, Payloads;
      StepKeepsInvariant(View(), Next);
      InvariantIsWellLinked(View());
      if error.Some? {
        results := results + [ReadRejected];
        return;
      }
      if queue == [] {
        queueResolve := Some(|results|);
        results := results + [Waiting];
        return;
      }
      var elem := queue[0];
      queue := queue[1..];
      promises := promises[elem.promise := Resolved];
      results := results + [Got(elem.payload)];
      fates := fates + [Delivered(elem.payload, elem.promise)];
    }

    method ThrowInto(e: Thrown)
      requires Invariant(View())
      modifies this
      ensures View() == Step(old(View()), Throw(e)) && Invariant(View())
    {
      hide Invariant, GotOnly, DeliveredOnly, FatePayloads, Payloads, RejectAll, Discard;
      StepKeepsInvariant(View(), Throw(e));
      InvariantIsWellLinked(View());
      RejectNothing<T>(promises);
      error := if e.Truthy? then Some(e.reason) else None;
      assert queue[..0] == [];
      for i := 0 to |queue|
        modifies this`promises
        invariant promises == RejectAll(old(promises), queue[..i])
      {
        RejectOneMore(old(promises), queue[..i], queue[i]);
        assert queue[..i + 1] == queue[..i] + [queue[i]];
        promises := promises[queue[i].promise := Rejected];
      }
      assert queue[..|queue|] == queue;
      fates := fates + Discard(queue);
      queue := [];
    }
  }
}
