/** Running a call with a deadline and the caller's signal (packages/dubbo/src/protocol/run-call.ts). */
module RunCall {
  import opened Common
  import opened Errors
  import opened AbortSignals

  /** The reason the deadline signal is aborted with. */
  const TIMED_OUT := Dubbo(NewError("the operation timed out", DEADLINE_EXCEEDED))

  /** The reason of `controller.abort()` without an argument. */
  const NO_REASON := AbortError("This operation was aborted")

  /** What a caller is to see of a reason a transport reports: a `DubboError` as it is, an AbortError as Canceled
      (1) with its message, any other error as Unknown (2) with its message, any other value as Unknown with its
      text. */
  predicate SurfacesAs(reason: Reason, e: DubboError) {
    match reason
    case Dubbo(d) => e == d
    case AbortError(m) => e == DubboError(1, m, map[], [])
    case OtherError(m) => e == DubboError(2, m, map[], [])
    case OtherValue(t) => e == DubboError(2, t, map[], [])
    case Undefined => e == DubboError(2, "undefined", map[], [])
  }

  /** The error of a call whose deadline was reached: DeadlineExceeded (4). */
  predicate IsTimeout(e: DubboError) {
    e == DubboError(4, "the operation timed out", map[], [])
  }

  /** An unlinked signal is reached from itself only. */
  lemma OnlyReachesItself(s: map<Id, Signal>, x: Id, z: Id)
    requires Reaches(s, x, z) && z in s && s[z].sources == None
    ensures x == z
  {
    var p :| IsPath(s, p) && p[0] == x && p[|p| - 1] == z;
    assert |p| == 1 || Linked(s, p[|p| - 2], p[|p| - 2 + 1]);
  }

  /** A signal nothing is linked to reaches only itself. */
  lemma ReachesOnlyItself(s: map<Id, Signal>, d: Id)
    requires forall y :: !Linked(s, d, y)
    ensures forall z :: Reaches(s, d, z) ==> z == d
  {
    forall z | Reaches(s, d, z) ensures z == d {
      var p :| IsPath(s, p) && p[0] == d && p[|p| - 1] == z;
      ClosedUnderReach(s, {d}, p);
    }
  }

  /** Sources and reasons of the signals in `s` are as they were. */
  ghost predicate Kept(s: map<Id, Signal>, t: map<Id, Signal>) {
    forall x | x in s :: x in t && t[x].sources == s[x].sources && t[x].reason == s[x].reason
  }

  /** `createDeadlineSignal`: a timeout of zero or less aborts the signal right away, a longer one starts
      a timer. */
  method CreateDeadlineSignal(heap: AbortHeap, timeoutMs: Option<int>) returns (d: Id, timer: bool)
    requires heap.Valid()
    modifies heap
    ensures heap.Valid() && d !in old(heap.signals) && heap.signals.Keys == old(heap.signals).Keys + {d}
    ensures Kept(old(heap.signals), heap.signals) && heap.signals[d].sources == None
    ensures heap.signals[d].reason == if timeoutMs.Some? && timeoutMs.value <= 0 then Some(TIMED_OUT) else None
    ensures timer <==> timeoutMs.Some? && timeoutMs.value > 0
  {
    timer := false;
    d := heap.NewController();
    ghost var plain := heap.signals;
    if timeoutMs.Some? {
      if timeoutMs.value <= 0 {
        FreshNotListening(old(heap.signals), d);
        assert forall y :: Linked(plain, d, y) ==> Linked(old(heap.signals), d, y);
        heap.Abort(d, TIMED_OUT);
        ReachesOnlyItself(plain, d);
        ReachesSelf(plain, d);
      } else {
        timer := true;
      }
    }
  }

  /** One call: the deadline signal and its timer, and the controller linked to the deadline and to the
      caller's signal. */
  class Call {
    const heap: AbortHeap
    const caller: Option<Id>
    const deadline: Id
    const controller: Id
    var timer: bool

    ghost predicate Valid()
      reads this, heap
    {
      && heap.Valid()
      && deadline in heap.signals && controller in heap.signals && controller != deadline
      && (caller.Some? ==> caller.value in heap.signals && caller.value != deadline && caller.value != controller)
      && heap.signals[controller].sources == Some(Present([caller, Some(deadline)]))
      && heap.signals[deadline].sources == None
      && (Aborted(heap.signals, deadline) ==> heap.signals[deadline].reason == Some(TIMED_OUT))
      && (timer ==> !Aborted(heap.signals, deadline))
    }

    /** `setupSignal`: the request signal starts aborted iff the caller's signal or the deadline is; the
        caller's reason comes first. */
    constructor (heap: AbortHeap, caller: Option<Id>, timeoutMs: Option<int>)
      requires heap.Valid() && (caller.Some? ==> caller.value in heap.signals)
      modifies heap
      ensures Valid() && this.heap == heap && this.caller == caller
      ensures timer <==> timeoutMs.Some? && timeoutMs.value > 0
      ensures Aborted(heap.signals, deadline) <==> timeoutMs.Some? && timeoutMs.value <= 0
      ensures heap.signals[controller].reason ==
        if caller.Some? && Aborted(old(heap.signals), caller.value) then old(heap.signals)[caller.value].reason
        else heap.signals[deadline].reason
    {
      hide Consistent, Listening, Present, Linked;
      this.heap, this.caller := heap, caller;
      var d, t := CreateDeadlineSignal(heap, timeoutMs);
      ghost var before := heap.signals;
      PresentTwo(caller, d);
      WhoIsFirst(before, caller, d);
      var c := heap.CreateLinked([caller, Some(d)]);
      ListeningKeeps(before, Present([caller, Some(d)]), c);
      deadline, controller, timer := d, c, t;
    }

    /** The deadline timer fires. */
    method TimerFires()
      requires Valid() && timer
      modifies this`timer, heap`signals
      ensures Valid() && !timer && SameLinks(old(heap.signals), heap.signals)
      ensures Aborted(heap.signals, deadline) && Aborted(heap.signals, controller)
    {
      timer := false;
      ghost var before := heap.signals;
      heap.Abort(deadline, TIMED_OUT);
      ReachesSelf(before, deadline);
      assert Some(deadline) in [caller, Some(deadline)];
      ReachesSelf(before, controller);
      ReachesThrough(before, deadline, controller, controller);
    }

    /** Some other signal, such as the caller's, is aborted. */
    method OtherAborts(x: Id, r: Reason)
      requires Valid() && x in heap.signals && x != deadline && x != controller
      modifies heap`signals
      ensures Valid() && SameLinks(old(heap.signals), heap.signals)
      ensures Aborted(heap.signals, deadline) <==> Aborted(old(heap.signals), deadline)
      ensures Finished() <== old(Finished())
      ensures caller == Some(x) ==> Aborted(heap.signals, controller)
    {
      ghost var before := heap.signals;
      heap.Abort(x, r);
      DeadlineNotReached(before, x);
      if caller == Some(x) {
        assert Some(x) in [caller, Some(deadline)];
        ReachesSelf(before, controller);
        ReachesThrough(before, x, controller, controller);
      }
    }

    lemma DeadlineNotReached(before: map<Id, Signal>, x: Id)
      requires deadline in before && before[deadline].sources == None && x != deadline
      ensures !Reaches(before, x, deadline)
    {
      assert Reaches(before, x, deadline) ==> x == deadline by {
        if Reaches(before, x, deadline) {
          OnlyReachesItself(before, x, deadline);
        }
      }
    }

    /** Nothing of the call is left behind: no timer, the request signal aborted, and no listener of the
        call's controller on any signal, the caller's included. */
    ghost predicate Finished()
      reads this, heap
    {
      && !timer
      && Aborted(heap.signals, controller)
      && forall u | u in heap.signals :: controller !in heap.signals[u].listeners
    }

    /** The function called when the transport is done. */
    method Done()
      requires Valid()
      modifies this`timer, heap`signals
      ensures Valid() && Finished() && SameLinks(old(heap.signals), heap.signals)
      ensures Aborted(heap.signals, deadline) <==> Aborted(old(heap.signals), deadline)
      ensures heap.signals[controller].reason == if Aborted(old(heap.signals), controller)
        then old(heap.signals[controller].reason) else Some(AbortError("This operation was aborted"))
    {
      timer := false;
      Release(NO_REASON);
    }

    /** The function called when the transport reports an error: the error surfaced is the deadline's if
        the deadline has been reached, whatever the transport reported. */
    method AbortCall(reason: Reason) returns (e: DubboError)
      requires Valid()
      modifies this`timer, heap`signals
      ensures Valid() && Finished() && SameLinks(old(heap.signals), heap.signals)
      ensures Aborted(heap.signals, deadline) <==> Aborted(old(heap.signals), deadline)
      ensures e == if Aborted(old(heap.signals), deadline) then TIMED_OUT.error else FromReason(reason)
      ensures if Aborted(old(heap.signals), deadline) then IsTimeout(e) else SurfacesAs(reason, e)
      ensures heap.signals[controller].reason ==
        if Aborted(old(heap.signals), controller) then old(heap.signals[controller].reason) else Some(Dubbo(e))
    {
      e := FromReason(if heap.signals[deadline].reason.Some? then heap.signals[deadline].reason.value else reason);
      Release(Dubbo(e));
      timer := false;
    }

    /** `controller.abort(reason)`. */
    method Release(r: Reason)
      requires Valid()
      modifies heap`signals
      ensures Valid() && Aborted(heap.signals, controller) && SameLinks(old(heap.signals), heap.signals)
      ensures forall u | u in heap.signals :: controller !in heap.signals[u].listeners
      ensures Aborted(heap.signals, deadline) <==> Aborted(old(heap.signals), deadline)
      ensures heap.signals[controller].reason ==
        if Aborted(old(heap.signals), controller) then old(heap.signals[controller].reason) else Some(r)
    {
      ghost var before := heap.signals;
      heap.Abort(controller, r);
      ReachesSelf(before, controller);
      DeadlineNotReached(before, controller);
    }
  }

  lemma PresentTwo(caller: Option<Id>, d: Id)
    ensures Present([caller, Some(d)]) == if caller.Some? then [caller.value, d] else [d]
  {
    var given := [caller, Some(d)];
    var rest := given[1..];
    assert rest == [Some(d)] && rest[1..] == [];
    assert Present(rest) == [d] + Present(rest[1..]) == [d];
    assert Present(given) == if caller.Some? then [caller.value] + Present(rest) else Present(rest);
  }

  lemma ListeningKeeps(s: map<Id, Signal>, on: seq<Id>, c: Id)
    ensures Listening(s, on, c).Keys == s.Keys && Kept(s, Listening(s, on, c))
  {
  }

  lemma WhoIsFirst(s: map<Id, Signal>, caller: Option<Id>, d: Id)
    ensures caller.Some? && Aborted(s, caller.value) ==> FirstAborted(s, Present([caller, Some(d)]), 0)
    ensures !(caller.Some? && Aborted(s, caller.value)) && Aborted(s, d) ==>
      FirstAborted(s, Present([caller, Some(d)]), |Present([caller, Some(d)])| - 1)
  {
    PresentTwo(caller, d);
  }

  // ----- whole calls

  /** What can happen during a streaming call. */
  datatype Event = Deadline | Abort(signal: Id, reason: Reason) | NextValue | NextDone | NextRejected(reason: Reason)

  /** A unary call whose transport settles once: it ends finished, with the error described above. */
  method RunUnaryCall(call: Call, rejected: Option<Reason>) returns (e: Option<DubboError>)
    requires call.Valid()
    modifies call`timer, call.heap`signals
    ensures call.Valid() && call.Finished()
    ensures e.Some? <==> rejected.Some?
    ensures e.Some? ==>
      if Aborted(old(call.heap.signals), call.deadline) then IsTimeout(e.value) else SurfacesAs(rejected.value, e.value)
  {
    if rejected.None? {
      call.Done();
      return None;
    }
    var err := call.AbortCall(rejected.value);
    return Some(err);
  }

  /** A read has ended the call before event `n`. */
  ghost predicate Settled(events: seq<Event>, n: nat)
    requires n <= |events|
  {
    exists j | 0 <= j < n :: events[j].NextDone? || events[j].NextRejected?
  }

  /** The deadline is reached before event `n`: it was at the start, or its timer was running and fired
      while the call was. */
  ghost predicate DeadlineReached(early: bool, timer: bool, events: seq<Event>, n: nat)
    requires n <= |events|
  {
    early || (timer && exists j | 0 <= j < n :: events[j].Deadline? && !Settled(events, j))
  }

  /** The errors event `n` surfaces. */
  ghost function SurfacedBy(early: bool, timer: bool, events: seq<Event>, n: nat): seq<DubboError>
    requires n < |events|
  {
    if !events[n].NextRejected? then []
    else if DeadlineReached(early, timer, events, n) then [TIMED_OUT.error]
    else [FromReason(events[n].reason)]
  }

  /** The errors the caller is to see: one for each rejected read, the deadline's once it is reached. */
  ghost function Surfaced(early: bool, timer: bool, events: seq<Event>, n: nat): seq<DubboError>
    requires n <= |events|
  {
    if n == 0 then [] else Surfaced(early, timer, events, n - 1) + SurfacedBy(early, timer, events, n - 1)
  }

  /** The rejected reads among the first `n` events. */
  ghost function Rejections(events: seq<Event>, n: nat): seq<nat>
    requires n <= |events|
  {
    if n == 0 then [] else Rejections(events, n - 1) + (if events[n - 1].NextRejected? then [n - 1] else [])
  }

  /** `e` is what the caller is to see of event `k`, a rejected read: the deadline's error if it was reached by
      then, and what the reason surfaces as otherwise. */
  ghost predicate RightFor(early: bool, timer: bool, events: seq<Event>, k: nat, e: DubboError)
    requires k < |events|
  {
    && events[k].NextRejected?
    && if DeadlineReached(early, timer, events, k) then IsTimeout(e) else SurfacesAs(events[k].reason, e)
  }

  /** One error surfaces for each rejected read, in order, and it is the right one. */
  ghost predicate SurfacedRight(early: bool, timer: bool, events: seq<Event>, n: nat, surfaced: seq<DubboError>)
    requires n <= |events|
  {
    var at := Rejections(events, n);
    && |surfaced| == |at|
    && forall i | 0 <= i < |at| :: at[i] < n && RightFor(early, timer, events, at[i], surfaced[i])
  }

  lemma SurfacedByIsRight(early: bool, timer: bool, events: seq<Event>, n: nat)
    requires n < |events|
    ensures |SurfacedBy(early, timer, events, n)| == if events[n].NextRejected? then 1 else 0
    ensures events[n].NextRejected? ==> RightFor(early, timer, events, n, SurfacedBy(early, timer, events, n)[0])
  {
    hide DeadlineReached;
  }

  lemma {:induction false} SurfacedAreRight(early: bool, timer: bool, events: seq<Event>, n: nat)
    requires n <= |events|
    ensures SurfacedRight(early, timer, events, n, Surfaced(early, timer, events, n))
  {
    hide RightFor, SurfacedBy;
    if n > 0 {
      SurfacedAreRight(early, timer, events, n - 1);
      SurfacedByIsRight(early, timer, events, n - 1);
    }
  }

  /** How one more event changes what has been reached. */
  lemma OneMoreEvent(early: bool, timer: bool, events: seq<Event>, n: nat)
    requires n < |events|
    ensures Settled(events, n + 1) <==> Settled(events, n) || events[n].NextDone? || events[n].NextRejected?
    ensures DeadlineReached(early, timer, events, n + 1) <==>
      DeadlineReached(early, timer, events, n) || (timer && events[n].Deadline? && !Settled(events, n))
  {
  }

  /** A streaming call under any interleaving of deadline, aborts and reads. Once it is read to its end or
      to an error it is finished and stays so. Each rejected read surfaces an error: DeadlineExceeded if the
      deadline has been reached by then, whatever the transport reported, and the reported one otherwise. */
  method RunStreamingCall(call: Call, events: seq<Event>) returns (surfaced: seq<DubboError>)
    requires call.Valid()
    requires forall ev | ev in events && ev.Abort? ::
      ev.signal in call.heap.signals && ev.signal != call.deadline && ev.signal != call.controller
    modifies call`timer, call.heap`signals
    ensures call.Valid()
    ensures Settled(events, |events|) ==> call.Finished()
    ensures SurfacedRight(Aborted(old(call.heap.signals), call.deadline), old(call.timer), events, |events|, surfaced)
    ensures Aborted(call.heap.signals, call.deadline) <==>
      DeadlineReached(Aborted(old(call.heap.signals), call.deadline), old(call.timer), events, |events|)
  {
    hide Settled, DeadlineReached, Call.Valid, Call.Finished;
    ghost var early, timer := Aborted(call.heap.signals, call.deadline), call.timer;
    surfaced := [];
    Start(call, events);
    for i := 0 to |events|
      invariant call.Valid() && call.heap.signals.Keys == old(call.heap.signals).Keys
      invariant Settled(events, i) ==> call.Finished()
      invariant Aborted(call.heap.signals, call.deadline) <==> DeadlineReached(early, timer, events, i)
      invariant call.timer <==> timer && !Settled(events, i) && !DeadlineReached(early, timer, events, i)
      invariant surfaced == Surfaced(early, timer, events, i)
    {
      OneMoreEvent(early, timer, events, i);
      assert Surfaced(early, timer, events, i + 1) ==
        Surfaced(early, timer, events, i) + SurfacedBy(early, timer, events, i);
      match events[i]
      case Deadline =>
        if call.timer {
          call.TimerFires();
        }
      case Abort(x, r) => call.OtherAborts(x, r);
      case NextValue =>
      case NextDone => call.Done();
      case NextRejected(r) =>
        var e := call.AbortCall(r);
        surfaced := surfaced + [e];
    }
    SurfacedAreRight(early, timer, events, |events|);
  }

  lemma Start(call: Call, events: seq<Event>)
    requires call.Valid()
    ensures !Settled(events, 0)
    ensures DeadlineReached(Aborted(call.heap.signals, call.deadline), call.timer, events, 0)
      <==> Aborted(call.heap.signals, call.deadline)
    ensures Surfaced(Aborted(call.heap.signals, call.deadline), call.timer, events, 0) == []
    ensures call.timer ==> !Aborted(call.heap.signals, call.deadline)
  {
  }

  // ----- interceptors

  function Reversed<T>(xs: seq<T>): (r: seq<T>)
    ensures |r| == |xs|
  {
    if xs == [] then [] else Reversed(xs[1..]) + [xs[0]]
  }

  /** `reduce((n, i) => i(n), next)`. */
  function Reduce<T>(xs: seq<T -> T>, next: T): T {
    if xs == [] then next else Reduce(xs[1..], xs[0](next))
  }

  /** `applyInterceptors`. */
  function ApplyInterceptors<T>(next: T, interceptors: Option<seq<T -> T>>): T {
    if interceptors.Some? then Reduce(Reversed(interceptors.value), next) else next
  }

  /** Each interceptor wraps the ones after it. */
  function Nested<T>(interceptors: seq<T -> T>, next: T): T {
    if interceptors == [] then next else interceptors[0](Nested(interceptors[1..], next))
  }

  lemma {:induction false} ReduceSnoc<T>(xs: seq<T -> T>, x: T -> T, next: T)
    ensures Reduce(xs + [x], next) == x(Reduce(xs, next))
  {
    if xs == [] {
      assert [x][1..] == [];
      assert xs + [x] == [x];
    } else {
      ReduceSnoc(xs[1..], x, xs[0](next));
      assert (xs + [x])[1..] == xs[1..] + [x];
    }
  }

  /** The first interceptor is the outermost. */
  lemma {:induction false} FirstInterceptorIsOutermost<T>(next: T, interceptors: seq<T -> T>)
    ensures ApplyInterceptors(next, Some(interceptors)) == Nested(interceptors, next)
  {
    if interceptors != [] {
      FirstInterceptorIsOutermost(next, interceptors[1..]);
      ReduceSnoc(Reversed(interceptors[1..]), interceptors[0], next);
    }
  }
}
