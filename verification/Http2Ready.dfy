/** The ready state of an HTTP/2 session: open streams, timers and keep-alive PINGs
    (packages/dubbo-node/src/http2-session-manager.ts, ready()). Every call of a closure of the state is
    one step; the clock is read once per step. */
module Http2Ready {
  import opened Common

  /** A duration; `Infinite` is `Number.POSITIVE_INFINITY`. */
  datatype Ms = Finite(n: nat) | Infinite

  /** The largest delay `setTimeout` supports. */
  const MAX_DELAY := 0x7fff_ffff

  datatype Kind = Interval | PingTimeout | Idle

  datatype Timer = Timer(kind: Kind, armedAt: nat, ms: nat)

  /** The options. `pingIntervalMs` is shared with the manager and can be doubled. */
  datatype Options = Options(pingIntervalMs: Ms, pingTimeoutMs: Ms, pingIdleConnection: bool,
          idleConnectionTimeoutMs: Ms)

  /** The three timer variables, and the timers that are live. */
  datatype Timers = Timers(
    pingIntervalId: Option<nat>,
    pingTimeoutId: Option<nat>,
    idleTimeoutId: Option<nat>,
    live: map<nat, Timer>,
    next: nat)

  // ----- timers

  /** `safeSetTimeout`, its result stored in the variable for the kind. */
  function SetTimer(ts: Timers, kind: Kind, ms: Ms, now: nat): Timers {
    var id := if ms.Finite? && ms.n <= MAX_DELAY then Some(ts.next) else None;
    var t := if id.Some? then ts.(live := ts.live[ts.next := Timer(kind, now, ms.n)], next := ts.next + 1) else ts;
    match kind
    case Interval => t.(pingIntervalId := id)
    case PingTimeout => t.(pingTimeoutId := id)
    case Idle => t.(idleTimeoutId := id)
  }

  /** `clearTimeout`: an id that is undefined, or of a timer that has fired, is ignored. */
  function ClearTimer(ts: Timers, id: Option<nat>): Timers {
    if id.Some? then ts.(live := ts.live - {id.value}) else ts
  }

  function StopPingInterval(ts: Timers): Timers {
    ClearTimer(ClearTimer(ts, ts.pingIntervalId), ts.pingTimeoutId)
  }

  /** `resetPingInterval`: `wanted` is whether there are streams, or idle connections are pinged. */
  function ResetPingInterval(ts: Timers, wanted: bool, ms: Ms, now: nat): Timers {
    var t := StopPingInterval(ts);
    if wanted then SetTimer(t, Interval, ms, now) else t
  }

  function StopIdleTimeout(ts: Timers): Timers {
    ClearTimer(ts, ts.idleTimeoutId)
  }

  /** The variable that names a timer of a kind. */
  function Holder(ts: Timers, kind: Kind): Option<nat> {
    match kind
    case Interval => ts.pingIntervalId
    case PingTimeout => ts.pingTimeoutId
    case Idle => ts.idleTimeoutId
  }

  /** Every live timer is the one its variable names, so there is at most one of each kind. */
  predicate IdsHold(ts: Timers, now: nat) {
    forall id | id in ts.live ::
      id < ts.next && Holder(ts, ts.live[id].kind) == Some(id) && ts.live[id].armedAt <= now
  }

  predicate NoneOf(ts: Timers, kind: Kind) {
    forall id | id in ts.live :: ts.live[id].kind != kind
  }

  /** A live timer is live for a reason: idle only without streams since it was armed, interval only when
      wanted, PING timeout only without a sign of life since it was armed. */
  predicate HasReason(t: Timer, streams: int, o: Options, lastAliveAt: nat, lastBusy: nat) {
    match t.kind
    case Idle => streams == 0 && lastBusy <= t.armedAt && o.idleConnectionTimeoutMs == Finite(t.ms)
    case Interval => streams > 0 || o.pingIdleConnection
    case PingTimeout => lastAliveAt <= t.armedAt && o.pingTimeoutMs == Finite(t.ms)
  }

  predicate Reasons(ts: Timers, streams: int, o: Options, lastAliveAt: nat, lastBusy: nat) {
    forall id | id in ts.live :: HasReason(ts.live[id], streams, o, lastAliveAt, lastBusy)
  }

  /** `t` has only timers of `ts`, and possibly a new one. */
  predicate Adds(ts: Timers, t: Timers, kind: Kind, ms: Ms, now: nat) {
    forall id | id in t.live ::
      (id in ts.live && t.live[id] == ts.live[id]) || (ms.Finite? && t.live[id] == Timer(kind, now, ms.n))
  }

  lemma TimerSet(ts: Timers, kind: Kind, ms: Ms, now: nat)
    requires IdsHold(ts, now) && NoneOf(ts, kind)
    ensures IdsHold(SetTimer(ts, kind, ms, now), now) && Adds(ts, SetTimer(ts, kind, ms, now), kind, ms, now)
  {
  }

  lemma TimerCleared(ts: Timers, kind: Kind, now: nat)
    requires IdsHold(ts, now)
    ensures var t := ClearTimer(ts, Holder(ts, kind));
      IdsHold(t, now) && NoneOf(t, kind) && forall id | id in t.live :: id in ts.live && t.live[id] == ts.live[id]
  {
  }

  /** Restarting leaves the idle timer, and the interval timer only when wanted. */
  lemma IntervalReset(ts: Timers, wanted: bool, ms: Ms, now: nat)
    requires IdsHold(ts, now)
    ensures var t := ResetPingInterval(ts, wanted, ms, now);
      && IdsHold(t, now) && t.idleTimeoutId == ts.idleTimeoutId
      && forall id | id in t.live ::
        (id in ts.live && t.live[id] == ts.live[id] && t.live[id].kind == Idle)
          || (wanted && t.live[id].kind == Interval)
  {
    hide SetTimer, ClearTimer, IdsHold;
    var t1 := ClearTimer(ts, ts.pingIntervalId);
    TimerCleared(ts, Interval, now);
    Untouched(ts, Interval, ms, now);
    var t2 := ClearTimer(t1, t1.pingTimeoutId);
    TimerCleared(t1, PingTimeout, now);
    Untouched(t1, PingTimeout, ms, now);
    if wanted {
      TimerSet(t2, Interval, ms, now);
      Untouched(t2, Interval, ms, now);
    }
  }

  /** The idle timer's variable stays when another timer is set or cleared. */
  lemma Untouched(ts: Timers, kind: Kind, ms: Ms, now: nat)
    ensures kind != Idle ==> SetTimer(ts, kind, ms, now).idleTimeoutId == ts.idleTimeoutId
    ensures var t := ClearTimer(ts, Holder(ts, kind));
      t.idleTimeoutId == ts.idleTimeoutId && t.pingTimeoutId == ts.pingTimeoutId
  {
  }

  // ----- the state

  /** A ready state and its surroundings: outstanding PINGs (with whether they verify the connection),
      registered streams, the connection. `signs` records when a sign of life was registered, `lastBusy` the
      last time a stream was closed (or the state created). */
  datatype State = State(
    lastAliveAt: nat,
    streamCount: int,
    tooManyPings: bool,
    hooks: bool,
    listening: bool,
    closed: bool,
    destroyed: bool,
    timers: Timers,
    pings: map<nat, bool>,
    nextPing: nat,
    open: set<nat>,
    awaiting: set<nat>,
    signs: seq<nat>,
    lastBusy: nat,
    clock: nat)

  datatype Event =
    | Register(stream: nat)
    | Response(stream: nat)
    | StreamClosed(stream: nat)
    | BytesRead(sameSession: bool)
    | VerifyPing
    | PingAnswered(ping: nat, failed: bool, duration: nat)
    | TimerFires(timer: nat)
    | ConnClosed
    | ConnFailed
    | GoAway(many: bool)
    | AbortConn
    | Entered
    | Exited

  /** What the environment can do: a stream is registered once, answers and closes at most once; a PING is
      answered at most once; a timer fires at most once, and not before its delay is over; the clock does
      not step back. */
  predicate Enabled(s: State, e: Event, now: nat) {
    && now >= s.clock
    && match e
      case Register(stream) => stream !in s.open && stream !in s.awaiting
      case Response(stream) => stream in s.awaiting
      case StreamClosed(stream) => stream in s.open
      case PingAnswered(ping, _, _) => ping in s.pings
      case TimerFires(timer) => timer in s.timers.live && now >= s.timers.live[timer].armedAt + s.timers.live[timer].ms
      case _ => true
  }

  function Wanted(streams: int, o: Options): bool {
    streams > 0 || o.pingIdleConnection
  }

  function Restarted(s: State, o: Options): State {
    s.(timers := ResetPingInterval(s.timers, Wanted(s.streamCount, o), o.pingIntervalMs, s.clock))
  }

  /** A sign of life: `lastAliveAt = Date.now()`, then the interval is restarted. */
  function Alive(s: State, o: Options): State {
    Restarted(s.(lastAliveAt := s.clock, signs := s.signs + [s.clock]), o)
  }

  /** `commonPing`: `verification` tells which callback runs on success. */
  function CommonPing(s: State, o: Options, verification: bool): State {
    s.(timers := SetTimer(ClearTimer(s.timers, s.timers.pingTimeoutId), PingTimeout, o.pingTimeoutMs, s.clock),
       pings := s.pings[s.nextPing := verification], nextPing := s.nextPing + 1)
  }

  function Cleanup(s: State): State {
    s.(timers := StopIdleTimeout(StopPingInterval(s.timers)), listening := false)
  }

  function Registered(s: State, o: Options, stream: nat): State {
    var t := s.(streamCount := s.streamCount + 1, open := s.open + {stream}, awaiting := s.awaiting + {stream});
    if t.streamCount == 1 then
      var u := Restarted(t, o);
      u.(timers := StopIdleTimeout(u.timers))
    else t
  }

  function Unregistered(s: State, o: Options, stream: nat): State {
    var t := s.(streamCount := s.streamCount - 1, open := s.open - {stream}, lastBusy := s.clock);
    if t.streamCount == 0 then
      var u := Restarted(t, o);
      u.(timers := SetTimer(u.timers, Idle, o.idleConnectionTimeoutMs, u.clock))
    else t
  }

  predicate Exceeds(n: int, limit: Ms) {
    limit.Finite? && n > limit.n
  }

  /** The PING callback. */
  function Answered(s: State, o: Options, ping: nat, failed: bool, duration: nat): State
    requires ping in s.pings
  {
    var t := s.(timers := ClearTimer(s.timers, s.timers.pingTimeoutId), pings := s.pings - {ping});
    if failed then t
    else if Exceeds(duration, o.pingTimeoutMs) then t.(destroyed := true)
    else if s.pings[ping] then t.(lastAliveAt := t.clock, signs := t.signs + [t.clock])
    else Alive(t, o)
  }

  function Fired(s: State, o: Options, timer: nat): State
    requires timer in s.timers.live
  {
    var t := s.(timers := s.timers.(live := s.timers.live - {timer}));
    match s.timers.live[timer].kind
    case Interval => CommonPing(t, o, false)
    case PingTimeout => t.(destroyed := true)
    case Idle => Cleanup(t.(closed := true))
  }

  /** `onClose` and `onError`. Node.js emits the close and error events of a session once it is destroyed. */
  function Ended(s: State): State {
    var t := s.(destroyed := true);
    if s.listening then Cleanup(t) else t
  }

  function Step(s: State, e: Event, o: Options, now: nat): State
    requires Enabled(s, e, now)
  {
    var s := s.(clock := now);
    match e
    case Register(stream) => Registered(s, o, stream)
    case Response(stream) => Alive(s.(awaiting := s.awaiting - {stream}), o)
    case StreamClosed(stream) => Unregistered(s, o, stream)
    case BytesRead(sameSession) =>
      if !sameSession || s.closed || s.destroyed || s.streamCount <= 0 then s else Alive(s, o)
    case VerifyPing => CommonPing(s, o, true)
    case PingAnswered(ping, failed, duration) => Answered(s, o, ping, failed, duration)
    case TimerFires(timer) => Fired(s, o, timer)
    case ConnClosed => Ended(s)
    case ConnFailed => Ended(s)
    case GoAway(many) => if s.listening && many then s.(tooManyPings := true) else s
    case AbortConn => s.(destroyed := true)
    case Entered => s.(hooks := true)
    case Exited => Cleanup(s).(hooks := false)
  }

  /** `ready(conn, options)`: only the idle timer is started. */
  function Initial(o: Options, now: nat): State {
    var ts := SetTimer(Timers(None, None, None, map[], 0), Idle, o.idleConnectionTimeoutMs, now);
    State(now, 0, false, false, true, false, false, ts, map[], 0, {}, {}, [now], now, now)
  }

  // ----- the invariant

  /** The counter counts the open streams, and no sign of life is later than `lastAliveAt`. */
  predicate Books(s: State) {
    && s.streamCount == |s.open|
    && s.lastAliveAt <= s.clock && s.lastBusy <= s.clock
    && (forall i | 0 <= i < |s.signs| :: s.signs[i] <= s.lastAliveAt)
    && (forall p | p in s.pings :: p < s.nextPing)
  }

  predicate Invariant(s: State, o: Options) {
    IdsHold(s.timers, s.clock) && Reasons(s.timers, s.streamCount, o, s.lastAliveAt, s.lastBusy) && Books(s)
  }

  /** Restarting the interval establishes the reasons of all timers but a stale idle one. */
  lemma RestartedKeeps(s: State, o: Options)
    requires IdsHold(s.timers, s.clock) && Books(s)
    requires forall id | id in s.timers.live && s.timers.live[id].kind == Idle ::
      HasReason(s.timers.live[id], s.streamCount, o, s.lastAliveAt, s.lastBusy)
    ensures Invariant(Restarted(s, o), o)
    ensures NoneOf(s.timers, Idle) ==> NoneOf(Restarted(s, o).timers, Idle)
  {
    hide ResetPingInterval, IdsHold;
    IntervalReset(s.timers, Wanted(s.streamCount, o), o.pingIntervalMs, s.clock);
  }

  lemma AliveKeeps(s: State, o: Options)
    requires Invariant(s, o)
    ensures Invariant(Alive(s, o), o)
  {
    hide Restarted, IdsHold;
    RestartedKeeps(s.(lastAliveAt := s.clock, signs := s.signs + [s.clock]), o);
  }

  lemma IdleHasNoStreams(s: State, o: Options)
    requires Invariant(s, o)
    ensures NoneOf(s.timers, Idle) || s.streamCount == 0
  {
    hide IdsHold, Books;
    if id :| id in s.timers.live && s.timers.live[id].kind == Idle {
      assert HasReason(s.timers.live[id], s.streamCount, o, s.lastAliveAt, s.lastBusy);
    }
  }

  lemma PingKeeps(s: State, o: Options, verification: bool)
    requires Invariant(s, o)
    ensures Invariant(CommonPing(s, o, verification), o)
  {
    hide SetTimer, ClearTimer, IdsHold;
    TimerCleared(s.timers, PingTimeout, s.clock);
    TimerSet(ClearTimer(s.timers, s.timers.pingTimeoutId), PingTimeout, o.pingTimeoutMs, s.clock);
  }

  lemma CleanupKeeps(s: State, o: Options)
    requires Invariant(s, o)
    ensures Invariant(Cleanup(s), o) && Cleanup(s).timers.live == map[]
  {
    hide SetTimer, ClearTimer, IdsHold;
    var t1 := ClearTimer(s.timers, s.timers.pingIntervalId);
    TimerCleared(s.timers, Interval, s.clock);
    Untouched(s.timers, Interval, Infinite, s.clock);
    var t2 := ClearTimer(t1, t1.pingTimeoutId);
    TimerCleared(t1, PingTimeout, s.clock);
    Untouched(t1, PingTimeout, Infinite, s.clock);
    var t3 := ClearTimer(t2, t2.idleTimeoutId);
    TimerCleared(t2, Idle, s.clock);
    assert t3.live == map[];
  }

  lemma RegisteredKeeps(s: State, o: Options, stream: nat)
    requires Invariant(s, o) && stream !in s.open
    ensures Invariant(Registered(s, o, stream), o)
  {
    hide ResetPingInterval, ClearTimer, IdsHold;
    var t := s.(streamCount := s.streamCount + 1, open := s.open + {stream}, awaiting := s.awaiting + {stream});
    if t.streamCount == 1 {
      IntervalReset(t.timers, true, o.pingIntervalMs, t.clock);
      TimerCleared(Restarted(t, o).timers, Idle, t.clock);
    } else {
      IdleHasNoStreams(s, o);
      assert forall id | id in s.timers.live ::
        HasReason(s.timers.live[id], s.streamCount, o, s.lastAliveAt, s.lastBusy);
    }
  }

  lemma UnregisteredKeeps(s: State, o: Options, stream: nat)
    requires Invariant(s, o) && stream in s.open
    ensures Invariant(Unregistered(s, o, stream), o)
  {
    hide Restarted, SetTimer, IdsHold;
    var t := s.(streamCount := s.streamCount - 1, open := s.open - {stream}, lastBusy := s.clock);
    IdleHasNoStreams(s, o);
    if t.streamCount == 0 {
      RestartedKeeps(t, o);
      RestartedClock(t, o);
      var u := Restarted(t, o);
      TimerSet(u.timers, Idle, o.idleConnectionTimeoutMs, u.clock);
    } else {
      assert forall id | id in s.timers.live ::
        HasReason(s.timers.live[id], s.streamCount, o, s.lastAliveAt, s.lastBusy);
    }
  }

  lemma RestartedClock(s: State, o: Options)
    ensures Restarted(s, o) == s.(timers := Restarted(s, o).timers)
  {
  }

  lemma PingTimeoutStopped(s: State, o: Options)
    requires Invariant(s, o)
    ensures var t := s.(timers := ClearTimer(s.timers, s.timers.pingTimeoutId));
      Invariant(t, o) && NoneOf(t.timers, PingTimeout)
  {
    hide ClearTimer, IdsHold;
    TimerCleared(s.timers, PingTimeout, s.clock);
  }

  lemma AnsweredKeeps(s: State, o: Options, ping: nat, failed: bool, duration: nat)
    requires Invariant(s, o) && ping in s.pings
    ensures Invariant(Answered(s, o, ping, failed, duration), o)
  {
    hide Alive, IdsHold, ClearTimer, Exceeds;
    var stopped := s.(timers := ClearTimer(s.timers, s.timers.pingTimeoutId));
    PingTimeoutStopped(s, o);
    var t := stopped.(pings := s.pings - {ping});
    AliveKeeps(t, o);
    var u := t.(lastAliveAt := t.clock, signs := t.signs + [t.clock]);
    forall id | id in u.timers.live ensures HasReason(u.timers.live[id], u.streamCount, o, u.lastAliveAt, u.lastBusy) {
      assert HasReason(t.timers.live[id], t.streamCount, o, t.lastAliveAt, t.lastBusy);
    }
  }

  lemma FiredKeeps(s: State, o: Options, timer: nat)
    requires Invariant(s, o) && timer in s.timers.live
    ensures Invariant(Fired(s, o, timer), o)
  {
    hide CommonPing, Cleanup;
    var t := s.(timers := s.timers.(live := s.timers.live - {timer}));
    assert Invariant(t, o);
    PingKeeps(t, o, false);
    CleanupKeeps(t.(closed := true), o);
  }

  /** Leaving a state stops every timer. */
  lemma ExitStopsTimers(s: State, o: Options, now: nat)
    requires Invariant(s, o) && now >= s.clock
    ensures Step(s, Exited, o, now).timers.live == map[]
  {
    hide Cleanup;
    CleanupKeeps(s.(clock := now), o);
  }

  /** Every step keeps the invariant. */
  lemma StepKeepsInvariant(s: State, e: Event, o: Options, now: nat)
    requires Invariant(s, o) && Enabled(s, e, now)
    ensures Invariant(Step(s, e, o, now), o)
  {
    hide Alive, CommonPing, Cleanup, Registered, Unregistered, Answered, Fired;
    var t := s.(clock := now);
    assert Invariant(t, o);
    match e
    case Register(stream) => RegisteredKeeps(t, o, stream);
    case Response(stream) => AliveKeeps(t.(awaiting := t.awaiting - {stream}), o);
    case StreamClosed(stream) => UnregisteredKeeps(t, o, stream);
    case BytesRead(_) => AliveKeeps(t, o);
    case VerifyPing => PingKeeps(t, o, true);
    case PingAnswered(ping, failed, duration) => AnsweredKeeps(t, o, ping, failed, duration);
    case TimerFires(timer) => FiredKeeps(t, o, timer);
    case ConnClosed => CleanupKeeps(t.(destroyed := true), o);
    case ConnFailed => CleanupKeeps(t.(destroyed := true), o);
    case GoAway(_) =>
    case AbortConn =>
    case Entered =>
    case Exited => CleanupKeeps(t, o);
  }

  // ----- runs

  /** A step with the options in force: only the ping interval ever changes. */
  datatype Stamped = At(event: Event, pingIntervalMs: Ms, now: nat)

  function InForce(o: Options, e: Stamped): Options {
    o.(pingIntervalMs := e.pingIntervalMs)
  }

  function Stepped(s: State, e: Stamped, o: Options): State
    requires Enabled(s, e.event, e.now)
  {
    Step(s, e.event, InForce(o, e), e.now)
  }

  ghost predicate Possible(s: State, events: seq<Stamped>, o: Options)
    decreases |events|
  {
    events == [] || (Enabled(s, events[0].event, events[0].now) && Possible(Stepped(s, events[0], o), events[1..], o))
  }

  /** The state after the first `k` events. */
  ghost function After(s: State, events: seq<Stamped>, o: Options, k: nat): State
    requires Possible(s, events, o) && k <= |events|
    decreases k
  {
    if k == 0 then s else After(Stepped(s, events[0], o), events[1..], o, k - 1)
  }

  ghost function Run(s: State, events: seq<Stamped>, o: Options): State
    requires Possible(s, events, o)
  {
    After(s, events, o, |events|)
  }

  lemma InvariantForgetsInterval(s: State, o: Options, ms: Ms)
    ensures Invariant(s, o) <==> Invariant(s, o.(pingIntervalMs := ms))
  {
    assert forall t: Timer ::
      HasReason(t, s.streamCount, o, s.lastAliveAt, s.lastBusy)
      <==> HasReason(t, s.streamCount, o.(pingIntervalMs := ms), s.lastAliveAt, s.lastBusy);
  }

  lemma SteppedKeepsInvariant(s: State, e: Stamped, o: Options)
    requires Invariant(s, o) && Enabled(s, e.event, e.now)
    ensures Invariant(Stepped(s, e, o), o)
  {
    hide Invariant, Step, Enabled;
    InvariantForgetsInterval(s, o, e.pingIntervalMs);
    StepKeepsInvariant(s, e.event, InForce(o, e), e.now);
    InvariantForgetsInterval(Stepped(s, e, o), o, e.pingIntervalMs);
  }

  lemma {:induction false} AfterKeepsInvariant(s: State, events: seq<Stamped>, o: Options, k: nat)
    requires Possible(s, events, o) && Invariant(s, o) && k <= |events|
    ensures Invariant(After(s, events, o, k), o)
    decreases k
  {
    hide Invariant, Stepped, Enabled;
    if k > 0 {
      SteppedKeepsInvariant(s, events[0], o);
      AfterKeepsInvariant(Stepped(s, events[0], o), events[1..], o, k - 1);
    }
  }

  lemma RunKeepsInvariant(s: State, events: seq<Stamped>, o: Options)
    requires Possible(s, events, o) && Invariant(s, o)
    ensures Invariant(Run(s, events, o), o)
  {
    AfterKeepsInvariant(s, events, o, |events|);
  }

  /** The next state of a run. */
  lemma {:induction false} AfterOneMore(s: State, events: seq<Stamped>, o: Options, k: nat)
    requires Possible(s, events, o) && k < |events|
    ensures var t := After(s, events, o, k);
      Enabled(t, events[k].event, events[k].now) && After(s, events, o, k + 1) == Stepped(t, events[k], o)
    decreases k
  {
    hide Stepped, Enabled;
    if k > 0 {
      AfterOneMore(Stepped(s, events[0], o), events[1..], o, k - 1);
    }
  }

  lemma InitialHolds(o: Options, now: nat)
    ensures Invariant(Initial(o, now), o)
  {
  }

  /** What holds after every run: the stream counter is exact; at most one timer of each kind is live, the
      idle timer only without open streams, the interval timer only with streams or for idle connections;
      and no sign of life is later than the arming of a live PING timeout. */
  lemma ReachableStates(o: Options, start: nat, events: seq<Stamped>)
    requires Possible(Initial(o, start), events, o)
    ensures var s := Run(Initial(o, start), events, o);
      && s.streamCount == |s.open|
      && (forall a, b | a in s.timers.live && b in s.timers.live && s.timers.live[a].kind == s.timers.live[b].kind ::
        a == b)
      && (forall a | a in s.timers.live && s.timers.live[a].kind == Idle :: s.open == {})
      && (forall a | a in s.timers.live && s.timers.live[a].kind == Interval :: s.open != {} || o.pingIdleConnection)
      && (forall a, i | a in s.timers.live && s.timers.live[a].kind == PingTimeout && 0 <= i < |s.signs| ::
            s.signs[i] <= s.timers.live[a].armedAt)
  {
    hide After, Possible, Initial;
    InitialHolds(o, start);
    RunKeepsInvariant(Initial(o, start), events, o);
    var s := Run(Initial(o, start), events, o);
    forall a | a in s.timers.live ensures HasReason(s.timers.live[a], s.streamCount, o, s.lastAliveAt, s.lastBusy) {
    }
  }

  /** The records of `t` extend those of `s`. */
  predicate Extends(s: State, t: State) {
    t.lastAliveAt >= s.lastAliveAt && t.lastBusy >= s.lastBusy
  }

  lemma RestartedRecords(s: State, o: Options)
    ensures Restarted(s, o).lastAliveAt == s.lastAliveAt && Restarted(s, o).lastBusy == s.lastBusy
      && Restarted(s, o).clock == s.clock
  {
    hide ResetPingInterval;
  }

  lemma AliveRecords(s: State, o: Options)
    requires Books(s)
    ensures Extends(s, Alive(s, o)) && Alive(s, o).lastAliveAt == s.clock
  {
    hide Restarted;
    RestartedRecords(s.(lastAliveAt := s.clock, signs := s.signs + [s.clock]), o);
  }

  lemma StreamsRecord(s: State, o: Options, stream: nat)
    requires Books(s)
    ensures Extends(s, Registered(s, o, stream))
    ensures Extends(s, Unregistered(s, o, stream)) && Unregistered(s, o, stream).lastBusy == s.clock
  {
    hide Restarted, SetTimer, StopIdleTimeout;
    RestartedRecords(s.(streamCount := s.streamCount + 1, open := s.open + {stream},
      awaiting := s.awaiting + {stream}), o);
    RestartedRecords(s.(streamCount := s.streamCount - 1, open := s.open - {stream}, lastBusy := s.clock), o);
  }

  lemma AnsweredRecords(s: State, o: Options, ping: nat, failed: bool, duration: nat)
    requires Books(s) && ping in s.pings
    ensures Extends(s, Answered(s, o, ping, failed, duration))
    ensures !failed && !Exceeds(duration, o.pingTimeoutMs) ==>
      Answered(s, o, ping, failed, duration).lastAliveAt == s.clock
  {
    hide Alive, ClearTimer;
    AliveRecords(s.(timers := ClearTimer(s.timers, s.timers.pingTimeoutId), pings := s.pings - {ping}), o);
  }

  lemma FiredRecords(s: State, o: Options, timer: nat)
    requires timer in s.timers.live
    ensures Extends(s, Fired(s, o, timer))
  {
    hide SetTimer, ClearTimer, StopPingInterval, StopIdleTimeout;
  }

  /** The events that register a sign of life: a response header, a timely answer to a PING, and bytes
      read while streams are open on a connection that is alive. */
  predicate ShowsLife(s: State, e: Event, o: Options) {
    match e
    case Response(_) => true
    case PingAnswered(_, failed, duration) => !failed && !Exceeds(duration, o.pingTimeoutMs)
    case BytesRead(sameSession) => sameSession && !s.closed && !s.destroyed && s.streamCount > 0
    case _ => false
  }

  /** A step forgets no sign of life and no close of a stream. */
  lemma StepRecords(s: State, e: Event, o: Options, now: nat)
    requires Books(s) && Enabled(s, e, now)
    ensures var t := Step(s, e, o, now);
      && Extends(s, t)
      && (ShowsLife(s, e, o) ==> t.lastAliveAt == now)
      && (e.StreamClosed? ==> t.lastBusy == now)
  {
    hide Alive, Registered, Unregistered, Answered, Fired, SetTimer, ClearTimer, StopPingInterval, StopIdleTimeout;
    var t := s.(clock := now);
    match e
    case Register(stream) => StreamsRecord(t, o, stream);
    case Response(stream) => AliveRecords(t.(awaiting := t.awaiting - {stream}), o);
    case StreamClosed(stream) => StreamsRecord(t, o, stream);
    case BytesRead(_) => AliveRecords(t, o);
    case PingAnswered(ping, failed, duration) => AnsweredRecords(t, o, ping, failed, duration);
    case TimerFires(timer) => FiredRecords(t, o, timer);
    case _ =>
  }

  /** Every sign of life and every close of a stream in a run is on record after it. */
  lemma {:induction false} RunRecords(s: State, events: seq<Stamped>, o: Options)
    requires Possible(s, events, o) && Invariant(s, o)
    ensures var t := Run(s, events, o);
      && Extends(s, t)
      && (forall i | 0 <= i < |events| && ShowsLife(After(s, events, o, i), events[i].event, o) ::
            events[i].now <= t.lastAliveAt)
      && (forall i | 0 <= i < |events| && events[i].event.StreamClosed? :: events[i].now <= t.lastBusy)
    decreases |events|
  {
    hide Step, Enabled, IdsHold, Reasons, ShowsLife;
    if events != [] {
      var t := Stepped(s, events[0], o);
      StepRecords(s, events[0].event, InForce(o, events[0]), events[0].now);
      LifeForgetsInterval(s, events[0], o);
      SteppedKeepsInvariant(s, events[0], o);
      RunRecords(t, events[1..], o);
      forall i | 0 < i < |events|
        ensures events[i] == events[1..][i - 1] && After(s, events, o, i) == After(t, events[1..], o, i - 1)
      {
      }
    }
  }

  lemma LifeForgetsInterval(s: State, e: Stamped, o: Options)
    ensures ShowsLife(s, e.event, InForce(o, e)) <==> ShowsLife(s, e.event, o)
  {
  }

  /** Keep-alive safety: after every run, when a timer destroys the connection no sign of life has been
      registered for at least `pingTimeoutMs`; and when a timer closes it no stream is open, and none has
      been for at least `idleConnectionTimeoutMs`. */
  lemma KillsAreJustified(o: Options, start: nat, events: seq<Stamped>, timer: nat, now: nat)
    requires Possible(Initial(o, start), events, o)
    requires Enabled(Run(Initial(o, start), events, o), TimerFires(timer), now)
    ensures var s := Run(Initial(o, start), events, o);
      var t := Step(s, TimerFires(timer), o, now);
      && (t.destroyed && !s.destroyed ==>
            && o.pingTimeoutMs.Finite?
            && (forall i | 0 <= i < |s.signs| :: s.signs[i] + o.pingTimeoutMs.n <= now)
            && (forall i | 0 <= i < |events| && ShowsLife(After(Initial(o, start), events, o, i), events[i].event, o) ::
                  events[i].now + o.pingTimeoutMs.n <= now))
      && (t.closed && !s.closed ==>
            && s.open == {} && o.idleConnectionTimeoutMs.Finite? && start + o.idleConnectionTimeoutMs.n <= now
            && (forall i | 0 <= i < |events| && events[i].event.StreamClosed? ::
                  events[i].now + o.idleConnectionTimeoutMs.n <= now))
  {
    hide After, Possible, Step, IdsHold, ShowsLife;
    InitialHolds(o, start);
    RunKeepsInvariant(Initial(o, start), events, o);
    RunRecords(Initial(o, start), events, o);
    var s := Run(Initial(o, start), events, o);
    assert HasReason(s.timers.live[timer], s.streamCount, o, s.lastAliveAt, s.lastBusy);
    OnlyTimersKill(s, timer, o, now);
  }

  lemma OnlyTimersKill(s: State, timer: nat, o: Options, now: nat)
    requires Enabled(s, TimerFires(timer), now)
    ensures var t := Step(s, TimerFires(timer), o, now);
      && (t.destroyed && !s.destroyed ==> s.timers.live[timer].kind == PingTimeout)
      && (t.closed && !s.closed ==> s.timers.live[timer].kind == Idle)
  {
    hide SetTimer, ClearTimer, StopPingInterval, StopIdleTimeout;
  }

  // ----- no timer is forgotten

  predicate Supported(ms: Ms) {
    ms.Finite? && ms.n <= MAX_DELAY
  }

  /** A variable never names a live timer of another kind, so clearing it stops no other timer. */
  predicate NamesHold(ts: Timers) {
    && (forall id | id in ts.live :: id < ts.next)
    && (forall k: Kind | Holder(ts, k).Some? ::
          Holder(ts, k).value < ts.next && (Holder(ts, k).value in ts.live ==> ts.live[Holder(ts, k).value].kind == k))
  }

  /** The timer of a kind is live. */
  predicate Runs(ts: Timers, kind: Kind) {
    Holder(ts, kind).Some? && Holder(ts, kind).value in ts.live && ts.live[Holder(ts, kind).value].kind == kind
  }

  lemma SetRuns(ts: Timers, kind: Kind, ms: Ms, now: nat)
    requires NamesHold(ts)
    ensures var t := SetTimer(ts, kind, ms, now);
      NamesHold(t) && (Runs(t, kind) <==> Supported(ms)) && forall k: Kind | k != kind :: Runs(t, k) <==> Runs(ts, k)
  {
    var t := SetTimer(ts, kind, ms, now);
    forall k: Kind ensures k != kind ==> Holder(t, k) == Holder(ts, k) {
    }
  }

  lemma ClearRuns(ts: Timers, kind: Kind)
    requires NamesHold(ts)
    ensures var t := ClearTimer(ts, Holder(ts, kind));
      NamesHold(t) && !Runs(t, kind) && forall k: Kind | k != kind :: Runs(t, k) <==> Runs(ts, k)
  {
    var t := ClearTimer(ts, Holder(ts, kind));
    forall k: Kind ensures Holder(t, k) == Holder(ts, k) {
    }
  }

  lemma SameHolders(ts: Timers, id: Option<nat>)
    ensures forall k: Kind :: Holder(ClearTimer(ts, id), k) == Holder(ts, k)
  {
  }

  lemma StopRuns(ts: Timers)
    requires NamesHold(ts)
    ensures var t := StopPingInterval(ts);
      NamesHold(t) && !Runs(t, Interval) && (Runs(t, Idle) <==> Runs(ts, Idle))
  {
    hide ClearTimer, NamesHold, Runs;
    ClearRuns(ts, Interval);
    SameHolders(ts, ts.pingIntervalId);
    assert Holder(ClearTimer(ts, ts.pingIntervalId), PingTimeout) == Holder(ts, PingTimeout);
    ClearRuns(ClearTimer(ts, ts.pingIntervalId), PingTimeout);
  }

  lemma ResetRuns(ts: Timers, wanted: bool, ms: Ms, now: nat)
    requires NamesHold(ts)
    ensures var t := ResetPingInterval(ts, wanted, ms, now);
      && NamesHold(t) && (Runs(t, Idle) <==> Runs(ts, Idle))
      && (wanted ==> (Runs(t, Interval) <==> Supported(ms)))
  {
    hide StopPingInterval, SetTimer, NamesHold, Runs;
    StopRuns(ts);
    if wanted {
      SetRuns(StopPingInterval(ts), Interval, ms, now);
    }
  }

  /** An idle connection: it lives, and no stream is open. */
  predicate IsIdle(s: State) {
    s.streamCount == 0 && !s.closed && !s.destroyed
  }

  /** The idle timer is live on an idle connection, if `setTimeout` supports its delay. */
  predicate IdleArmed(s: State, o: Options) {
    IsIdle(s) && Supported(o.idleConnectionTimeoutMs) ==> Runs(s.timers, Idle)
  }

  /** The one event that forgets an idle connection: leaving the ready state. */
  predicate Forgets(s: State, e: Event, o: Options) {
    e.Exited? && IsIdle(s) && Supported(o.idleConnectionTimeoutMs)
  }

  /** A PING that restarts the interval when it is answered is outstanding. */
  predicate RegularPing(pings: map<nat, bool>) {
    exists p | p in pings :: !pings[p]
  }

  /** Keep-alive is due: the connection lives and has open streams. */
  predicate Busy(s: State) {
    s.streamCount > 0 && !s.destroyed
  }

  /** When keep-alive is due, the interval timer is live or a keep-alive PING outstanding. */
  predicate Pinging(s: State) {
    Busy(s) ==> Runs(s.timers, Interval) || RegularPing(s.pings)
  }

  /** The events that end keep-alive, when no other keep-alive PING is outstanding: such a PING fails while
      no interval timer is live; the ready state is left; or the interval is restarted with a value
      `setTimeout` does not support. */
  predicate Stalls(s: State, e: Event, o: Options) {
    match e
    case Register(_) =>
      s.streamCount == 0 && !s.destroyed && !Supported(o.pingIntervalMs) && !RegularPing(s.pings)
    case Response(_) => Busy(s) && !Supported(o.pingIntervalMs) && !RegularPing(s.pings)
    case BytesRead(_) => Busy(s) && ShowsLife(s, e, o) && !Supported(o.pingIntervalMs) && !RegularPing(s.pings)
    case PingAnswered(ping, failed, _) =>
      && Busy(s) && !RegularPing(s.pings - {ping})
      && if failed then !Runs(s.timers, Interval)
         else ping in s.pings && !s.pings[ping] && ShowsLife(s, e, o) && !Supported(o.pingIntervalMs)
    case Exited => Busy(s) && !RegularPing(s.pings)
    case _ => false
  }

  lemma AliveArms(s: State, o: Options)
    requires NamesHold(s.timers)
    ensures NamesHold(Alive(s, o).timers) && (IdleArmed(Alive(s, o), o) <==> IdleArmed(s, o))
    ensures Pinging(Alive(s, o)) <==> !Busy(s) || Supported(o.pingIntervalMs) || RegularPing(s.pings)
  {
    hide ResetPingInterval, NamesHold, Runs, RegularPing, Supported;
    ResetRuns(s.timers, Wanted(s.streamCount, o), o.pingIntervalMs, s.clock);
  }

  lemma PingArms(s: State, o: Options, verification: bool)
    requires NamesHold(s.timers) && Books(s)
    ensures var t := CommonPing(s, o, verification);
      && NamesHold(t.timers) && (IdleArmed(t, o) <==> IdleArmed(s, o))
      && (Pinging(s) || !verification ==> Pinging(t))
  {
    hide SetTimer, ClearTimer, NamesHold, Runs, Supported;
    ClearRuns(s.timers, PingTimeout);
    SetRuns(ClearTimer(s.timers, s.timers.pingTimeoutId), PingTimeout, o.pingTimeoutMs, s.clock);
    var t := CommonPing(s, o, verification);
    if !verification {
      assert s.nextPing in t.pings && !t.pings[s.nextPing];
    } else if p :| p in s.pings && !s.pings[p] {
      assert p in t.pings && !t.pings[p];
    }
  }

  lemma CleanupArms(s: State, o: Options)
    requires NamesHold(s.timers)
    ensures NamesHold(Cleanup(s).timers)
    ensures IdleArmed(Cleanup(s), o) <==> !(IsIdle(s) && Supported(o.idleConnectionTimeoutMs))
    ensures Pinging(Cleanup(s)) <==> !Busy(s) || RegularPing(s.pings)
  {
    hide ClearTimer, NamesHold, Runs, StopPingInterval, RegularPing, Supported;
    StopRuns(s.timers);
    ClearRuns(StopPingInterval(s.timers), Idle);
  }

  lemma RegisteredArms(s: State, o: Options, stream: nat)
    requires NamesHold(s.timers) && s.streamCount >= 0
    ensures NamesHold(Registered(s, o, stream).timers) && IdleArmed(Registered(s, o, stream), o)
    ensures Pinging(s) ==> (Pinging(Registered(s, o, stream)) <==> !Stalls(s, Register(stream), o))
  {
    hide ResetPingInterval, ClearTimer, NamesHold, Runs, RegularPing, Supported;
    if s.streamCount == 0 {
      ResetRuns(s.timers, true, o.pingIntervalMs, s.clock);
      ClearRuns(ResetPingInterval(s.timers, true, o.pingIntervalMs, s.clock), Idle);
    }
  }

  lemma UnregisteredArms(s: State, o: Options, stream: nat)
    requires NamesHold(s.timers) && s.streamCount >= 1
    ensures NamesHold(Unregistered(s, o, stream).timers) && IdleArmed(Unregistered(s, o, stream), o)
    ensures Pinging(s) ==> Pinging(Unregistered(s, o, stream))
  {
    hide ResetPingInterval, SetTimer, NamesHold, Runs, RegularPing;
    if s.streamCount == 1 {
      var reset := ResetPingInterval(s.timers, Wanted(0, o), o.pingIntervalMs, s.clock);
      ResetRuns(s.timers, Wanted(0, o), o.pingIntervalMs, s.clock);
      SetRuns(reset, Idle, o.idleConnectionTimeoutMs, s.clock);
    }
  }

  /** An answer to a verification PING leaves the keep-alive PINGs outstanding as they are. */
  lemma RegularPingStays(pings: map<nat, bool>, ping: nat)
    requires ping in pings && pings[ping]
    ensures RegularPing(pings - {ping}) <==> RegularPing(pings)
  {
    if p :| p in pings && !pings[p] {
      assert p in pings - {ping} && !(pings - {ping})[p];
    }
  }

  lemma AnsweredArms(s: State, o: Options, ping: nat, failed: bool, duration: nat)
    requires NamesHold(s.timers) && ping in s.pings
    ensures NamesHold(Answered(s, o, ping, failed, duration).timers)
    ensures IdleArmed(s, o) ==> IdleArmed(Answered(s, o, ping, failed, duration), o)
    ensures Pinging(s) ==>
      (Pinging(Answered(s, o, ping, failed, duration)) <==> !Stalls(s, PingAnswered(ping, failed, duration), o))
  {
    hide Alive, ClearTimer, NamesHold, Runs, RegularPing, Supported, Exceeds;
    ClearRuns(s.timers, PingTimeout);
    var t := s.(timers := ClearTimer(s.timers, s.timers.pingTimeoutId), pings := s.pings - {ping});
    assert IdleArmed(t, o) <==> IdleArmed(s, o);
    AliveArms(t, o);
    if s.pings[ping] {
      RegularPingStays(s.pings, ping);
    }
  }

  lemma FiredArms(s: State, o: Options, timer: nat)
    requires NamesHold(s.timers) && Invariant(s, o) && timer in s.timers.live
    ensures NamesHold(Fired(s, o, timer).timers)
    ensures IdleArmed(s, o) ==> IdleArmed(Fired(s, o, timer), o)
    ensures Pinging(s) ==> Pinging(Fired(s, o, timer))
  {
    hide CommonPing, Cleanup;
    var t := s.(timers := s.timers.(live := s.timers.live - {timer}));
    forall k: Kind ensures Holder(t.timers, k) == Holder(s.timers, k) {
    }
    assert HasReason(s.timers.live[timer], s.streamCount, o, s.lastAliveAt, s.lastBusy);
    match s.timers.live[timer].kind
    case Interval =>
      assert IdleArmed(s, o) ==> IdleArmed(t, o);
      PingArms(t, o, false);
    case PingTimeout =>
    case Idle => CleanupArms(t.(closed := true), o);
  }

  /** What an event is to do, from `s` to `t`. */
  predicate ArmsRight(s: State, e: Event, o: Options, t: State) {
    && NamesHold(t.timers)
    && (IdleArmed(s, o) ==> (IdleArmed(t, o) <==> !Forgets(s, e, o)))
    && (Pinging(s) ==> (Pinging(t) <==> !Stalls(s, e, o)))
  }

  lemma ResponseArms(s: State, o: Options, stream: nat)
    requires NamesHold(s.timers)
    ensures ArmsRight(s, Response(stream), o, Alive(s.(awaiting := s.awaiting - {stream}), o))
  {
    hide Alive, NamesHold, Runs, RegularPing, Supported;
    AliveArms(s.(awaiting := s.awaiting - {stream}), o);
  }

  lemma BytesArm(s: State, o: Options, sameSession: bool)
    requires NamesHold(s.timers)
    ensures ArmsRight(s, BytesRead(sameSession), o, if ShowsLife(s, BytesRead(sameSession), o) then Alive(s, o) else s)
  {
    hide Alive, NamesHold, Runs, RegularPing, Supported;
    AliveArms(s, o);
  }

  lemma EndArms(s: State, o: Options, e: Event)
    requires NamesHold(s.timers) && (e.ConnClosed? || e.ConnFailed?)
    ensures ArmsRight(s, e, o, Ended(s))
  {
    hide Cleanup, NamesHold, Runs, RegularPing, Supported;
    CleanupArms(s.(destroyed := true), o);
  }

  lemma ExitArms(s: State, o: Options)
    requires NamesHold(s.timers)
    ensures ArmsRight(s, Exited, o, Cleanup(s).(hooks := false))
  {
    hide Cleanup, NamesHold, Runs, RegularPing, Supported;
    CleanupArms(s, o);
  }

  /** Only the clock differs. */
  lemma ArmsForgetsClock(s: State, e: Event, o: Options, now: nat, t: State)
    requires ArmsRight(s.(clock := now), e, o, t)
    ensures ArmsRight(s, e, o, t)
  {
    hide NamesHold, Runs, RegularPing, Supported;
  }

  /** Each event: the idle timer stays armed iff the event does not forget it, and keep-alive goes on iff the
      event does not end it. */
  lemma StepArms(s: State, e: Event, o: Options, now: nat)
    requires NamesHold(s.timers) && Invariant(s, o) && Enabled(s, e, now)
    ensures ArmsRight(s, e, o, Step(s, e, o, now))
  {
    hide Step, Invariant, ArmsRight, NamesHold;
    InvariantForgetsClock(s, o, now);
    StepForgetsClock(s, e, o, now);
    EventArms(s.(clock := now), e, o);
    ArmsForgetsClock(s, e, o, now, Step(s, e, o, now));
  }

  lemma StepForgetsClock(s: State, e: Event, o: Options, now: nat)
    requires Enabled(s, e, now)
    ensures Enabled(s.(clock := now), e, now) && Step(s.(clock := now), e, o, now) == Step(s, e, o, now)
  {
    hide Alive, CommonPing, Cleanup, Registered, Unregistered, Answered, Fired, Ended;
    assert s.(clock := now).(clock := now) == s.(clock := now);
  }

  lemma EventArms(s: State, e: Event, o: Options)
    requires NamesHold(s.timers) && Invariant(s, o) && Enabled(s, e, s.clock)
    ensures ArmsRight(s, e, o, Step(s, e, o, s.clock))
  {
    hide Alive, CommonPing, Cleanup, Registered, Unregistered, Answered, Fired, Ended, NamesHold, Runs, IdsHold,
      Reasons, RegularPing, Supported;
    assert s.(clock := s.clock) == s;
    match e
    case Register(stream) => RegisteredArms(s, o, stream);
    case Response(stream) => ResponseArms(s, o, stream);
    case StreamClosed(stream) => UnregisteredArms(s, o, stream);
    case BytesRead(sameSession) => BytesArm(s, o, sameSession);
    case VerifyPing => PingArms(s, o, true);
    case PingAnswered(ping, failed, duration) => AnsweredArms(s, o, ping, failed, duration);
    case TimerFires(timer) => FiredArms(s, o, timer);
    case ConnClosed => EndArms(s, o, e);
    case ConnFailed => EndArms(s, o, e);
    case GoAway(_) =>
    case AbortConn =>
    case Entered =>
    case Exited => ExitArms(s, o);
  }

  lemma InvariantForgetsClock(s: State, o: Options, now: nat)
    requires Invariant(s, o) && now >= s.clock
    ensures Invariant(s.(clock := now), o)
  {
  }

  lemma SteppedArms(s: State, e: Stamped, o: Options)
    requires NamesHold(s.timers) && Invariant(s, o) && Enabled(s, e.event, e.now)
    ensures NamesHold(Stepped(s, e, o).timers)
    ensures IdleArmed(s, o) ==> (IdleArmed(Stepped(s, e, o), o) <==> !Forgets(s, e.event, o))
    ensures Pinging(s) ==> (Pinging(Stepped(s, e, o)) <==> !Stalls(s, e.event, InForce(o, e)))
  {
    hide Step, Enabled, Invariant, NamesHold, Runs, Pinging, Stalls;
    InvariantForgetsInterval(s, o, e.pingIntervalMs);
    StepArms(s, e.event, InForce(o, e), e.now);
  }

  lemma InitialArmed(o: Options, now: nat)
    ensures var s := Initial(o, now);
      NamesHold(s.timers) && IdleArmed(s, o) && Pinging(s)
  {
    var none := Timers(None, None, None, map[], 0);
    assert NamesHold(none);
    SetRuns(none, Idle, o.idleConnectionTimeoutMs, now);
  }

  lemma {:induction false} AfterNames(o: Options, start: nat, events: seq<Stamped>, k: nat)
    requires Possible(Initial(o, start), events, o) && k <= |events|
    ensures var s := After(Initial(o, start), events, o, k);
      Invariant(s, o) && NamesHold(s.timers)
    decreases k
  {
    hide Initial, After, Possible, Stepped, Invariant, NamesHold, Enabled;
    InitialHolds(o, start);
    InitialArmed(o, start);
    AfterKeepsInvariant(Initial(o, start), events, o, k);
    if k == 0 {
      AfterNothing(Initial(o, start), events, o);
    } else {
      AfterNames(o, start, events, k - 1);
      AfterOneMore(Initial(o, start), events, o, k - 1);
      SteppedArms(After(Initial(o, start), events, o, k - 1), events[k - 1], o);
    }
  }

  lemma AfterNothing(s: State, events: seq<Stamped>, o: Options)
    requires Possible(s, events, o)
    ensures After(s, events, o, 0) == s
  {
  }

  /** An idle connection is closed in time: a live idle timer is due after `idleConnectionTimeoutMs`. */
  predicate TimesIdle(s: State, o: Options) {
    s.open == {} && !s.closed && !s.destroyed && Supported(o.idleConnectionTimeoutMs) ==>
      exists id | id in s.timers.live ::
        s.timers.live[id].kind == Idle && s.timers.live[id].ms == o.idleConnectionTimeoutMs.n
  }

  /** Keep-alive of a connection with open streams: a PING is scheduled or outstanding. */
  predicate KeepsAlive(s: State) {
    s.open != {} && !s.destroyed ==>
      (exists id | id in s.timers.live :: s.timers.live[id].kind == Interval)
        || (exists p | p in s.pings :: !s.pings[p])
  }

  lemma TimesIdleIffArmed(s: State, o: Options)
    requires Invariant(s, o)
    ensures TimesIdle(s, o) <==> IdleArmed(s, o)
  {
    if id :| id in s.timers.live && s.timers.live[id].kind == Idle {
      assert Holder(s.timers, Idle) == Some(id);
    }
    if Runs(s.timers, Idle) {
      var id := s.timers.idleTimeoutId.value;
      assert HasReason(s.timers.live[id], s.streamCount, o, s.lastAliveAt, s.lastBusy);
    }
  }

  lemma KeepsAliveIffPinging(s: State, o: Options)
    requires Invariant(s, o)
    ensures KeepsAlive(s) <==> Pinging(s)
  {
    hide Reasons;
    if id :| id in s.timers.live && s.timers.live[id].kind == Interval {
      assert Holder(s.timers, Interval) == Some(id);
    }
  }

  /** What one event of a run does to both, in terms of the timers and PINGs there are. */
  lemma AfterArms(o: Options, start: nat, events: seq<Stamped>, k: nat)
    requires Possible(Initial(o, start), events, o) && k < |events|
    ensures var s := After(Initial(o, start), events, o, k);
      var t := After(Initial(o, start), events, o, k + 1);
      && (TimesIdle(s, o) ==> (TimesIdle(t, o) <==> !Forgets(s, events[k].event, o)))
      && (KeepsAlive(s) ==> (KeepsAlive(t) <==> !Stalls(s, events[k].event, InForce(o, events[k]))))
  {
    hide Initial, After, Possible, Stepped, Invariant, NamesHold, Enabled, IdleArmed, Pinging, Stalls, Forgets,
      TimesIdle, KeepsAlive;
    var s, t := After(Initial(o, start), events, o, k), After(Initial(o, start), events, o, k + 1);
    AfterNames(o, start, events, k);
    AfterNames(o, start, events, k + 1);
    AfterOneMore(Initial(o, start), events, o, k);
    SteppedArms(s, events[k], o);
    TimesIdleIffArmed(s, o);
    TimesIdleIffArmed(t, o);
    KeepsAliveIffPinging(s, o);
    KeepsAliveIffPinging(t, o);
  }

  lemma InitialTimed(o: Options, start: nat, events: seq<Stamped>)
    requires Possible(Initial(o, start), events, o)
    ensures var s := After(Initial(o, start), events, o, 0);
      TimesIdle(s, o) && KeepsAlive(s)
  {
    hide Initial, After, Possible, Invariant, IdleArmed, Pinging, TimesIdle, KeepsAlive;
    InitialHolds(o, start);
    InitialArmed(o, start);
    AfterNothing(Initial(o, start), events, o);
    TimesIdleIffArmed(Initial(o, start), o);
    KeepsAliveIffPinging(Initial(o, start), o);
  }

  /** The idle timer runs all along a run whenever no stream is open. */
  ghost predicate AlwaysTimed(s: State, events: seq<Stamped>, o: Options)
    requires Possible(s, events, o)
  {
    forall k | 0 <= k <= |events| :: TimesIdle(After(s, events, o, k), o)
  }

  ghost predicate NeverForgotten(s: State, events: seq<Stamped>, o: Options)
    requires Possible(s, events, o)
  {
    forall k | 0 <= k < |events| :: !Forgets(After(s, events, o, k), events[k].event, o)
  }

  lemma {:induction false} TimedUntilForgotten(o: Options, start: nat, events: seq<Stamped>, k: nat)
    requires Possible(Initial(o, start), events, o) && k <= |events|
    requires NeverForgotten(Initial(o, start), events, o)
    ensures TimesIdle(After(Initial(o, start), events, o, k), o)
    decreases k
  {
    hide Initial, After, Possible, TimesIdle, KeepsAlive, Forgets, Stalls;
    InitialTimed(o, start, events);
    if k > 0 {
      TimedUntilForgotten(o, start, events, k - 1);
      AfterArms(o, start, events, k - 1);
    }
  }

  /** No idle connection is forgotten, exactly: all along a run the idle timer is live on a connection that
      lives and has no open stream, iff the ready state is never left with such a connection. */
  lemma IdleConnectionsAreTimed(o: Options, start: nat, events: seq<Stamped>)
    requires Possible(Initial(o, start), events, o)
    ensures AlwaysTimed(Initial(o, start), events, o) <==> NeverForgotten(Initial(o, start), events, o)
  {
    hide Initial, After, Possible, TimesIdle, KeepsAlive, Forgets, Stalls;
    var s := Initial(o, start);
    if AlwaysTimed(s, events, o) {
      forall k | 0 <= k < |events| ensures !Forgets(After(s, events, o, k), events[k].event, o) {
        assert TimesIdle(After(s, events, o, k), o) && TimesIdle(After(s, events, o, k + 1), o);
        AfterArms(o, start, events, k);
      }
    }
    if NeverForgotten(s, events, o) {
      forall k | 0 <= k <= |events| ensures TimesIdle(After(s, events, o, k), o) {
        TimedUntilForgotten(o, start, events, k);
      }
    }
  }

  /** All along a run a PING is scheduled or outstanding whenever streams are open. */
  ghost predicate AlwaysKeptAlive(s: State, events: seq<Stamped>, o: Options)
    requires Possible(s, events, o)
  {
    forall k | 0 <= k <= |events| :: KeepsAlive(After(s, events, o, k))
  }

  /** No event of a run is one that ends keep-alive. */
  ghost predicate NeverStalled(s: State, events: seq<Stamped>, o: Options)
    requires Possible(s, events, o)
  {
    forall k | 0 <= k < |events| :: !Stalls(After(s, events, o, k), events[k].event, InForce(o, events[k]))
  }

  lemma {:induction false} AliveUntilStalled(o: Options, start: nat, events: seq<Stamped>, k: nat)
    requires Possible(Initial(o, start), events, o) && k <= |events|
    requires NeverStalled(Initial(o, start), events, o)
    ensures KeepsAlive(After(Initial(o, start), events, o, k))
    decreases k
  {
    hide Initial, After, Possible, TimesIdle, KeepsAlive, Forgets, Stalls;
    InitialTimed(o, start, events);
    if k > 0 {
      AliveUntilStalled(o, start, events, k - 1);
      AfterArms(o, start, events, k - 1);
    }
  }

  /** Keep-alive never stalls, exactly: it goes on all along a run, on every connection that is not
      destroyed, iff no event of the run ends it. */
  lemma KeepAliveNeverStalls(o: Options, start: nat, events: seq<Stamped>)
    requires Possible(Initial(o, start), events, o)
    ensures AlwaysKeptAlive(Initial(o, start), events, o) <==> NeverStalled(Initial(o, start), events, o)
  {
    hide Initial, After, Possible, TimesIdle, KeepsAlive, Forgets, Stalls;
    var s := Initial(o, start);
    if AlwaysKeptAlive(s, events, o) {
      forall k | 0 <= k < |events| ensures !Stalls(After(s, events, o, k), events[k].event, InForce(o, events[k])) {
        assert KeepsAlive(After(s, events, o, k)) && KeepsAlive(After(s, events, o, k + 1));
        AfterArms(o, start, events, k);
      }
    }
    if NeverStalled(s, events, o) {
      forall k | 0 <= k <= |events| ensures KeepsAlive(After(s, events, o, k)) {
        AliveUntilStalled(o, start, events, k);
      }
    }
  }

  /** A run that stalls: a PING fails without the connection's error event, which leaves a connection with
      an open stream without any timer or PING. */
  lemma FailedPingStalls()
    ensures var o := Options(Finite(1), Finite(1), false, Infinite);
      var events := [At(Register(0), Finite(1), 0), At(TimerFires(0), Finite(1), 1),
        At(PingAnswered(0, true, 0), Finite(1), 1)];
      && Possible(Initial(o, 0), events, o)
      && var s := Run(Initial(o, 0), events, o);
        s.listening && !s.destroyed && s.open == {0} && s.timers.live == map[] && s.pings == map[]
  {
    hide Possible, Run;
    var o := Options(Finite(1), Finite(1), false, Infinite);
    var e := [At(Register(0), Finite(1), 0), At(TimerFires(0), Finite(1), 1),
      At(PingAnswered(0, true, 0), Finite(1), 1)];
    var s1 := OpenStream(Some(0), None, map[0 := Timer(Interval, 0, 1)], 1, map[], 0, 0);
    var s2 := OpenStream(Some(0), Some(1), map[1 := Timer(PingTimeout, 1, 1)], 2, map[0 := false], 1, 1);
    var s3 := OpenStream(Some(0), Some(1), map[], 2, map[], 1, 1);
    StreamOpened();
    PingSent();
    PingFailed();
    StepsTo([Initial(o, 0), s1, s2, s3], e, o);
  }

  /** A state with one open stream and no idle timer. */
  function OpenStream(interval: Option<nat>, timeout: Option<nat>, live: map<nat, Timer>, next: nat,
                      pings: map<nat, bool>, nextPing: nat, clock: nat): State
  {
    var timers := Timers(interval, timeout, None, live, next);
    State(0, 1, false, false, true, false, false, timers, pings, nextPing, {0}, {0}, [0], 0, clock)
  }

  lemma StreamOpened()
    ensures var o := Options(Finite(1), Finite(1), false, Infinite);
      Stepped(Initial(o, 0), At(Register(0), Finite(1), 0), o)
        == OpenStream(Some(0), None, map[0 := Timer(Interval, 0, 1)], 1, map[], 0, 0)
  {
    var o := Options(Finite(1), Finite(1), false, Infinite);
    var s := Stepped(Initial(o, 0), At(Register(0), Finite(1), 0), o);
    assert s.timers.live == map[0 := Timer(Interval, 0, 1)];
    assert s.open == {0} && s.awaiting == {0};
  }

  lemma PingSent()
    ensures var o := Options(Finite(1), Finite(1), false, Infinite);
      Stepped(OpenStream(Some(0), None, map[0 := Timer(Interval, 0, 1)], 1, map[], 0, 0),
        At(TimerFires(0), Finite(1), 1), o)
        == OpenStream(Some(0), Some(1), map[1 := Timer(PingTimeout, 1, 1)], 2, map[0 := false], 1, 1)
  {
    var o := Options(Finite(1), Finite(1), false, Infinite);
    var s := OpenStream(Some(0), None, map[0 := Timer(Interval, 0, 1)], 1, map[], 0, 0);
    assert Stepped(s, At(TimerFires(0), Finite(1), 1), o).timers.live == map[1 := Timer(PingTimeout, 1, 1)];
  }

  lemma PingFailed()
    ensures var o := Options(Finite(1), Finite(1), false, Infinite);
      var s := OpenStream(Some(0), Some(1), map[1 := Timer(PingTimeout, 1, 1)], 2, map[0 := false], 1, 1);
      Stepped(s, At(PingAnswered(0, true, 0), Finite(1), 1), o) == OpenStream(Some(0), Some(1), map[], 2, map[], 1, 1)
  {
    var o := Options(Finite(1), Finite(1), false, Infinite);
    var s := OpenStream(Some(0), Some(1), map[1 := Timer(PingTimeout, 1, 1)], 2, map[0 := false], 1, 1);
    var t := Stepped(s, At(PingAnswered(0, true, 0), Finite(1), 1), o);
    assert t.timers.live == map[] && t.pings == map[];
  }

  /** A run given state by state. */
  lemma {:induction false} StepsTo(states: seq<State>, e: seq<Stamped>, o: Options)
    requires |states| == |e| + 1
    requires forall i | 0 <= i < |e| ::
      Enabled(states[i], e[i].event, e[i].now) && Stepped(states[i], e[i], o) == states[i + 1]
    ensures Possible(states[0], e, o) && Run(states[0], e, o) == states[|e|]
    decreases |e|
  {
    hide Stepped, Enabled;
    if e != [] {
      assert Enabled(states[0], e[0].event, e[0].now) && Stepped(states[0], e[0], o) == states[1];
      StepsTo(states[1..], e[1..], o);
      OneStep(states[0], e, o);
    }
  }

  lemma OneStep(s: State, events: seq<Stamped>, o: Options)
    requires events != [] && Enabled(s, events[0].event, events[0].now)
    ensures var t := Stepped(s, events[0], o);
      && (Possible(s, events, o) <==> Possible(t, events[1..], o))
      && (Possible(s, events, o) ==> Run(s, events, o) == Run(t, events[1..], o))
  {
    hide Stepped, Enabled;
  }

  // ----- a verified connection is neither kept alive nor closed when idle

  const USUAL := Options(Finite(10), Finite(5), false, Finite(100))

  /** A state that only differs from the initial one in what a verification touches. */
  function Used(lastAliveAt: nat, hooks: bool, listening: bool, timers: Timers, pings: map<nat, bool>, nextPing: nat,
                open: set<nat>, signs: seq<nat>, clock: nat): State
  {
    State(lastAliveAt, |open|, false, hooks, listening, false, false, timers, pings, nextPing, open, open, signs, 0,
          clock)
  }

  const IDLE_TIMER := Timer(Idle, 0, 100)
  const INTERVAL_TIMER := Timer(Interval, 9, 10)
  const TIMEOUT_TIMER := Timer(PingTimeout, 15, 5)

  /** Verify an idle connection: the PING is answered, and the connection is current again without any timer. */
  lemma VerifiedIsNotTimed()
    ensures var events := [At(Entered, Finite(10), 0), At(VerifyPing, Finite(10), 15), At(Exited, Finite(10), 15),
        At(PingAnswered(0, false, 1), Finite(10), 16), At(Entered, Finite(10), 16)];
      && Possible(Initial(USUAL, 0), events, USUAL)
      && var s := Run(Initial(USUAL, 0), events, USUAL);
        s.hooks && !s.closed && !s.destroyed && s.open == {} && s.timers.live == map[]
  {
    hide Possible, Run, Step, Initial;
    var events := [At(Entered, Finite(10), 0), At(VerifyPing, Finite(10), 15), At(Exited, Finite(10), 15),
      At(PingAnswered(0, false, 1), Finite(10), 16), At(Entered, Finite(10), 16)];
    var s0 := Used(0, false, true, Timers(None, None, Some(0), map[0 := IDLE_TIMER], 1), map[], 0, {}, [0], 0);
    var s1 := Used(0, true, true, Timers(None, None, Some(0), map[0 := IDLE_TIMER], 1), map[], 0, {}, [0], 0);
    var timers := Timers(None, Some(1), Some(0), map[0 := IDLE_TIMER, 1 := TIMEOUT_TIMER], 2);
    var s2 := Used(0, true, true, timers, map[0 := true], 1, {}, [0], 15);
    var s3 := Used(0, false, false, Timers(None, Some(1), Some(0), map[], 2), map[0 := true], 1, {}, [0], 15);
    var s4 := Used(16, false, false, Timers(None, Some(1), Some(0), map[], 2), map[], 1, {}, [0, 16], 16);
    var s5 := Used(16, true, false, Timers(None, Some(1), Some(0), map[], 2), map[], 1, {}, [0, 16], 16);
    NewState(s0);
    Enter(s0, s1, 0);
    PingToVerify(s1, s2, Timers(None, None, Some(0), map[0 := IDLE_TIMER], 1), timers);
    Leave(s2, s3, timers);
    Verified(s3, s4, Timers(None, Some(1), Some(0), map[], 2));
    Enter(s4, s5, 16);
    StepsTo([s0, s1, s2, s3, s4, s5], events, USUAL);
  }

  /** The same with a stream open, and another one opened afterwards: no PING is sent any more. */
  lemma VerifiedIsNotKeptAlive()
    ensures var events := [At(Entered, Finite(10), 0), At(Register(0), Finite(10), 9), At(VerifyPing, Finite(10), 15),
        At(Exited, Finite(10), 15), At(PingAnswered(0, false, 1), Finite(10), 16), At(Entered, Finite(10), 16),
        At(Register(1), Finite(10), 16)];
      && Possible(Initial(USUAL, 0), events, USUAL)
      && var s := Run(Initial(USUAL, 0), events, USUAL);
        s.hooks && !s.closed && !s.destroyed && s.open == {0, 1} && s.timers.live == map[] && s.pings == map[]
  {
    hide Possible, Run, Step, Initial;
    var events := [At(Entered, Finite(10), 0), At(Register(0), Finite(10), 9), At(VerifyPing, Finite(10), 15),
      At(Exited, Finite(10), 15), At(PingAnswered(0, false, 1), Finite(10), 16), At(Entered, Finite(10), 16),
      At(Register(1), Finite(10), 16)];
    var s0 := Used(0, false, true, Timers(None, None, Some(0), map[0 := IDLE_TIMER], 1), map[], 0, {}, [0], 0);
    var s1 := Used(0, true, true, Timers(None, None, Some(0), map[0 := IDLE_TIMER], 1), map[], 0, {}, [0], 0);
    var pinging := Timers(Some(1), None, Some(0), map[1 := INTERVAL_TIMER], 2);
    var s2 := Used(0, true, true, pinging, map[], 0, {0}, [0], 9);
    var timers := Timers(Some(1), Some(2), Some(0), map[1 := INTERVAL_TIMER, 2 := TIMEOUT_TIMER], 3);
    var s3 := Used(0, true, true, timers, map[0 := true], 1, {0}, [0], 15);
    var stopped := timers.(live := map[]);
    var s4 := Used(0, false, false, stopped, map[0 := true], 1, {0}, [0], 15);
    var s5 := Used(16, false, false, stopped, map[], 1, {0}, [0, 16], 16);
    var s6 := Used(16, true, false, stopped, map[], 1, {0}, [0, 16], 16);
    var s7 := Used(16, true, false, stopped, map[], 1, {0, 1}, [0, 16], 16);
    NewState(s0);
    Enter(s0, s1, 0);
    FirstStream(s1, s2);
    PingToVerify(s2, s3, pinging, timers);
    Leave(s3, s4, timers);
    Verified(s4, s5, stopped);
    Enter(s5, s6, 16);
    SecondStream(s6, s7);
    StepsTo([s0, s1, s2, s3, s4, s5, s6, s7], events, USUAL);
  }

  lemma NewState(s: State)
    requires s == Used(0, false, true, Timers(None, None, Some(0), map[0 := IDLE_TIMER], 1), map[], 0, {}, [0], 0)
    ensures Initial(USUAL, 0) == s
  {
  }

  lemma Enter(s: State, t: State, now: nat)
    requires s.clock == now && t == s.(hooks := true)
    ensures Stepped(s, At(Entered, Finite(10), now), USUAL) == t
  {
    hide Alive, CommonPing, Cleanup, Registered, Unregistered, Answered, Fired, Ended;
  }

  lemma FirstStream(s: State, t: State)
    requires s == Used(0, true, true, Timers(None, None, Some(0), map[0 := IDLE_TIMER], 1), map[], 0, {}, [0], 0)
    requires var timers := Timers(Some(1), None, Some(0), map[1 := INTERVAL_TIMER], 2);
      t == Used(0, true, true, timers, map[], 0, {0}, [0], 9)
    ensures Stepped(s, At(Register(0), Finite(10), 9), USUAL) == t
  {
    var u := Stepped(s, At(Register(0), Finite(10), 9), USUAL);
    assert u.timers.live == map[1 := INTERVAL_TIMER];
    assert u.open == {0} && u.awaiting == {0};
  }

  lemma SecondStream(s: State, t: State)
    requires s.streamCount == 1 && s.open == {0} && s.awaiting == {0} && s.clock == 16
    requires t == s.(streamCount := 2, open := {0, 1}, awaiting := {0, 1})
    ensures Stepped(s, At(Register(1), Finite(10), 16), USUAL) == t
  {
    assert {0} + {1} == {0, 1};
  }

  lemma PingToVerify(s: State, t: State, before: Timers, after: Timers)
    requires s.timers == before && before.pingTimeoutId == None
    requires after == before.(pingTimeoutId := Some(before.next), live := before.live[before.next := TIMEOUT_TIMER],
                              next := before.next + 1)
    requires s.nextPing == 0 && s.pings == map[] && s.clock <= 15
    requires t == s.(timers := after, pings := map[0 := true], nextPing := 1, clock := 15)
    ensures Stepped(s, At(VerifyPing, Finite(10), 15), USUAL) == t
  {
  }

  lemma Leave(s: State, t: State, timers: Timers)
    requires s.timers == timers && forall id | id in timers.live :: Holder(timers, timers.live[id].kind) == Some(id)
    requires s.clock == 15 && t == s.(timers := timers.(live := map[]), listening := false, hooks := false)
    ensures Stepped(s, At(Exited, Finite(10), 15), USUAL) == t
  {
    assert Stepped(s, At(Exited, Finite(10), 15), USUAL).timers.live == map[];
  }

  lemma Verified(s: State, t: State, timers: Timers)
    requires s.timers == timers && timers.live == map[] && s.pings == map[0 := true] && s.clock == 15 && s.signs == [0]
    requires t == s.(lastAliveAt := 16, signs := [0, 16], pings := map[], clock := 16)
    ensures Stepped(s, At(PingAnswered(0, false, 1), Finite(10), 16), USUAL) == t
  {
    var u := Stepped(s, At(PingAnswered(0, false, 1), Finite(10), 16), USUAL);
    assert u.timers.live == map[] && u.pings == map[];
  }
}
