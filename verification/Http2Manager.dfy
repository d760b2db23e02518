/** A ready state as the object the closures of ready() share
    (packages/dubbo-node/src/http2-session-manager.ts). */
module ReadyObjects {
  import opened Common
  import opened Http2Ready

  /** The options object shared by the manager and its ready states. */
  class SharedOptions {
    var pingIntervalMs: Ms
    const pingTimeoutMs: Ms
    const pingIdleConnection: bool
    const idleConnectionTimeoutMs: Ms

    constructor (o: Options)
      ensures Value() == o
    {
      pingIntervalMs, pingTimeoutMs := o.pingIntervalMs, o.pingTimeoutMs;
      pingIdleConnection, idleConnectionTimeoutMs := o.pingIdleConnection, o.idleConnectionTimeoutMs;
    }

    function Value(): Options
      reads this
    {
      Options(pingIntervalMs, pingTimeoutMs, pingIdleConnection, idleConnectionTimeoutMs)
    }

    /** The options but for the interval, which no invariant depends on. */
    function Fixed(): Options {
      Options(Infinite, pingTimeoutMs, pingIdleConnection, idleConnectionTimeoutMs)
    }
  }

  /** What happened to a connection so far. */
  datatype Facts = Facts(
    closed: bool, destroyed: bool, streamCount: int, lastAliveAt: nat, pings: map<nat, bool>, nextPing: nat)

  function Doubled(ms: Ms): Ms {
    if ms.Finite? then Finite(2 * ms.n) else ms
  }

  /** The closure state of `ready()`. Each public method is one event at the time `now`. */
  class ReadyState {
    const options: SharedOptions
    var lastAliveAt: nat
    var streamCount: int
    var pingIntervalId: Option<nat>
    var pingTimeoutId: Option<nat>
    var idleTimeoutId: Option<nat>
    var tooManyPings: bool
    var hooks: bool
    var listening: bool
    var closed: bool
    var destroyed: bool
    var live: map<nat, Timer>
    var nextTimer: nat
    var pings: map<nat, bool>
    var nextPing: nat
    ghost var open: set<nat>
    ghost var awaiting: set<nat>
    ghost var signs: seq<nat>
    ghost var lastBusy: nat
    var clock: nat

    ghost function View(): State
      reads this
    {
      State(lastAliveAt, streamCount, tooManyPings, hooks, listening, closed, destroyed,
            Timers(pingIntervalId, pingTimeoutId, idleTimeoutId, live, nextTimer),
            pings, nextPing, open, awaiting, signs, lastBusy, clock)
    }

    /** What entering and leaving the state do not touch. */
    ghost function Connection(): Facts
      reads this
    {
      Facts(closed, destroyed, streamCount, lastAliveAt, pings, nextPing)
    }

    ghost predicate Valid()
      reads this
    {
      Invariant(View(), options.Fixed())
    }

    lemma StepKeepsValid(e: Event, now: nat)
      requires Valid() && Enabled(View(), e, now)
      ensures Invariant(Step(View(), e, options.Value(), now), options.Fixed())
    {
      hide Invariant, Step, Enabled, View;
      InvariantForgetsInterval(View(), options.Value(), Infinite);
      StepKeepsInvariant(View(), e, options.Value(), now);
      InvariantForgetsInterval(Step(View(), e, options.Value(), now), options.Value(), Infinite);
    }

    constructor (options: SharedOptions, now: nat)
      ensures this.options == options && View() == Initial(options.Value(), now) && Valid()
      ensures !hooks && listening && clock == now && Connection() == Facts(false, false, 0, now, map[], 0)
    {
      hide Invariant, SetTimer;
      this.options := options;
      lastAliveAt, streamCount, clock, signs, lastBusy := now, 0, now, [now], now;
      pingIntervalId, pingTimeoutId, idleTimeoutId, tooManyPings := None, None, None, false;
      live, nextTimer, pings, nextPing := map[], 0, map[], 0;
      hooks, listening, closed, destroyed := false, true, false, false;
      open, awaiting := {}, {};
      new;
      ResetIdle();
      assert View() == Initial(options.Value(), now);
      InitialHolds(options.Value(), now);
      InvariantForgetsInterval(View(), options.Value(), Infinite);
    }

    method SafeSetTimeout(kind: Kind, ms: Ms) returns (id: Option<nat>)
      modifies this`live, this`nextTimer
      ensures id == if ms.Finite? && ms.n <= MAX_DELAY then Some(old(nextTimer)) else None
      ensures live == if id.Some? then old(live)[old(nextTimer) := Timer(kind, clock, ms.n)] else old(live)
      ensures nextTimer == if id.Some? then old(nextTimer) + 1 else old(nextTimer)
    {
      if ms.Infinite? || ms.n > MAX_DELAY {
        return None;
      }
      id := Some(nextTimer);
      live := live[nextTimer := Timer(kind, clock, ms.n)];
      nextTimer := nextTimer + 1;
    }

    method ClearTimeout(id: Option<nat>)
      modifies this`live
      ensures live == if id.Some? then old(live) - {id.value} else old(live)
    {
      if id.Some? {
        live := live - {id.value};
      }
    }

    method StopPings()
      modifies this`live
      ensures View() == old(View()).(timers := StopPingInterval(old(View()).timers))
    {
      ClearTimeout(pingIntervalId);
      ClearTimeout(pingTimeoutId);
    }

    method RestartPings()
      modifies this`live, this`nextTimer, this`pingIntervalId
      ensures View() == Restarted(old(View()), options.Value())
    {
      StopPings();
      if streamCount > 0 || options.pingIdleConnection {
        pingIntervalId := SafeSetTimeout(Interval, options.pingIntervalMs);
      }
    }

    /** A timer that fires is not live any more. */
    method DropTimer(timer: nat)
      modifies this`live
      ensures View() == old(View()).(timers := old(View()).timers.(live := old(View()).timers.live - {timer}))
    {
      live := live - {timer};
    }

    method StopIdle()
      modifies this`live
      ensures View() == old(View()).(timers := StopIdleTimeout(old(View()).timers))
    {
      ClearTimeout(idleTimeoutId);
    }

    method ResetIdle()
      modifies this`live, this`nextTimer, this`idleTimeoutId
      ensures View() ==
        old(View()).(timers := SetTimer(old(View()).timers, Idle, options.idleConnectionTimeoutMs, clock))
    {
      idleTimeoutId := SafeSetTimeout(Idle, options.idleConnectionTimeoutMs);
    }

    method StopPingTimeout()
      modifies this`live
      ensures View() == old(View()).(timers := ClearTimer(old(View()).timers, pingTimeoutId))
    {
      ClearTimeout(pingTimeoutId);
    }

    method StartPingTimeout()
      modifies this`live, this`nextTimer, this`pingTimeoutId
      ensures View() == old(View()).(timers := SetTimer(old(View()).timers, PingTimeout, options.pingTimeoutMs, clock))
    {
      pingTimeoutId := SafeSetTimeout(PingTimeout, options.pingTimeoutMs);
    }

    method SendPing(verification: bool)
      modifies this`live, this`nextTimer, this`pingTimeoutId, this`pings, this`nextPing
      ensures View() == CommonPing(old(View()), options.Value(), verification)
      ensures pings == old(pings)[old(nextPing) := verification] && nextPing == old(nextPing) + 1
    {
      hide SetTimer, ClearTimer;
      StopPingTimeout();
      StartPingTimeout();
      pings := pings[nextPing := verification];
      nextPing := nextPing + 1;
    }

    method CleanUp()
      modifies this`live, this`listening
      ensures View() == Cleanup(old(View()))
      ensures !listening
    {
      StopPings();
      StopIdle();
      listening := false;
    }

    /** `lastAliveAt = Date.now()`. */
    method NoteAlive()
      modifies this`lastAliveAt, this`signs
      ensures View() == old(View()).(lastAliveAt := clock, signs := old(signs) + [clock])
    {
      lastAliveAt := clock;
      signs := signs + [clock];
    }

    method SignOfLife()
      modifies this`live, this`nextTimer, this`pingIntervalId, this`lastAliveAt, this`signs
      ensures View() == Alive(old(View()), options.Value())
    {
      NoteAlive();
      RestartPings();
    }

    predicate RequiresVerify(now: nat)
      reads this, options
    {
      Exceeds(now - lastAliveAt, options.pingIntervalMs)
    }

    method RegisterRequest(stream: nat, now: nat)
      requires Valid() && Enabled(View(), Register(stream), now)
      modifies this`clock, this`streamCount, this`open, this`awaiting, this`live, this`nextTimer, this`pingIntervalId
      ensures View() == Step(old(View()), Register(stream), options.Value(), now) && Valid()
      ensures clock == now
    {
      hide Invariant, Registered;
      StepKeepsValid(Register(stream), now);
      clock := now;
      AddStream(stream);
    }

    method AddStream(stream: nat)
      modifies this`streamCount, this`open, this`awaiting, this`live, this`nextTimer, this`pingIntervalId
      ensures View() == Registered(old(View()), options.Value(), stream)
    {
      hide Restarted, StopIdleTimeout;
      streamCount := streamCount + 1;
      open, awaiting := open + {stream}, awaiting + {stream};
      if streamCount == 1 {
        RestartPings();
        StopIdle();
      }
    }

    method ResponseReceived(stream: nat, now: nat)
      requires Valid() && Enabled(View(), Response(stream), now)
      modifies this`clock, this`awaiting, this`live, this`nextTimer, this`pingIntervalId, this`lastAliveAt, this`signs
      ensures View() == Step(old(View()), Response(stream), options.Value(), now) && Valid()
      ensures clock == now
    {
      hide Invariant;
      StepKeepsValid(Response(stream), now);
      clock := now;
      awaiting := awaiting - {stream};
      SignOfLife();
    }

    method StreamClose(stream: nat, now: nat)
      requires Valid() && Enabled(View(), StreamClosed(stream), now)
      modifies this`clock, this`streamCount, this`open, this`lastBusy, this`idleTimeoutId, this`live, this`nextTimer,
        this`pingIntervalId
      ensures View() == Step(old(View()), StreamClosed(stream), options.Value(), now) && Valid()
      ensures clock == now
    {
      hide Invariant, Unregistered;
      StepKeepsValid(StreamClosed(stream), now);
      clock := now;
      RemoveStream(stream);
    }

    method RemoveStream(stream: nat)
      modifies this`streamCount, this`open, this`lastBusy, this`live, this`nextTimer, this`pingIntervalId,
        this`idleTimeoutId
      ensures View() == Unregistered(old(View()), options.Value(), stream)
    {
      hide Restarted, SetTimer;
      streamCount := streamCount - 1;
      open, lastBusy := open - {stream}, clock;
      if streamCount == 0 {
        RestartPings();
        ResetIdle();
      }
    }

    method ResponseByteRead(sameSession: bool, now: nat)
      requires Valid() && now >= clock
      modifies this`clock, this`live, this`nextTimer, this`pingIntervalId, this`lastAliveAt, this`signs
      ensures View() == Step(old(View()), BytesRead(sameSession), options.Value(), now) && Valid()
      ensures clock == now
    {
      hide Invariant;
      StepKeepsValid(BytesRead(sameSession), now);
      clock := now;
      if !sameSession {
        return;
      }
      if closed || destroyed {
        return;
      }
      if streamCount <= 0 {
        return;
      }
      SignOfLife();
    }

    /** `ping()`, sent to verify the connection. */
    method Ping(now: nat)
      requires Valid() && now >= clock
      modifies this`clock, this`live, this`nextTimer, this`pingTimeoutId, this`pings, this`nextPing
      ensures View() == Step(old(View()), VerifyPing, options.Value(), now) && Valid()
      ensures clock == now && pings == old(pings)[old(nextPing) := true] && nextPing == old(nextPing) + 1
    {
      hide Invariant;
      StepKeepsValid(VerifyPing, now);
      clock := now;
      SendPing(true);
    }

    method PingCallback(ping: nat, failed: bool, duration: nat, now: nat)
      requires Valid() && Enabled(View(), PingAnswered(ping, failed, duration), now)
      modifies this`clock, this`pings, this`destroyed, this`live, this`nextTimer, this`pingIntervalId,
        this`lastAliveAt, this`signs
      ensures View() == Step(old(View()), PingAnswered(ping, failed, duration), options.Value(), now) && Valid()
      ensures clock == now
    {
      hide Invariant, Answered;
      StepKeepsValid(PingAnswered(ping, failed, duration), now);
      clock := now;
      AnswerPing(ping, failed, duration);
    }

    /** The body of the PING callback. */
    method AnswerPing(ping: nat, failed: bool, duration: nat)
      requires ping in pings
      modifies this`pings, this`destroyed, this`live, this`nextTimer, this`pingIntervalId, this`lastAliveAt, this`signs
      ensures View() == Answered(old(View()), options.Value(), ping, failed, duration)
    {
      hide ClearTimer, Alive, Restarted, Invariant, Enabled, Step;
      StopPingTimeout();
      var verification := pings[ping];
      pings := pings - {ping};
      if failed {
        return;
      }
      if Exceeds(duration, options.pingTimeoutMs) {
        destroyed := true;
        return;
      }
      if verification {
        NoteAlive();
      } else {
        SignOfLife();
      }
    }

    /** The events of streams and PINGs. */
    method HandleEvent(e: Event, now: nat)
      requires Valid() && Enabled(View(), e, now)
      requires e.Register? || e.Response? || e.StreamClosed? || e.PingAnswered?
      modifies this
      ensures View() == Step(old(View()), e, options.Value(), now) && Valid()
      ensures clock == now && hooks == old(hooks) && listening == old(listening)
    {
      hide Step, Invariant, Enabled, View;
      match e
      case Register(stream) => RegisterRequest(stream, now);
      case Response(stream) => ResponseReceived(stream, now);
      case StreamClosed(stream) => StreamClose(stream, now);
      case PingAnswered(ping, failed, duration) => PingCallback(ping, failed, duration, now);
    }

    /** A timer fires. An idle timeout closes the connection and reports it like a close event. */
    method TimerFired(timer: nat, now: nat) returns (reported: bool)
      requires Valid() && Enabled(View(), TimerFires(timer), now)
      modifies this`clock, this`listening, this`closed, this`destroyed, this`live, this`nextTimer, this`pingTimeoutId,
        this`pings, this`nextPing
      ensures View() == Step(old(View()), TimerFires(timer), options.Value(), now) && Valid()
      ensures timer in old(live) && (reported <==> old(live)[timer].kind == Idle && old(hooks))
      ensures (listening ==> old(listening)) && (old(live)[timer].kind != Idle ==> listening == old(listening))
      ensures clock == now
    {
      hide Invariant, Fired;
      StepKeepsValid(TimerFires(timer), now);
      clock := now;
      reported := FireTimer(timer);
    }

    /** The callbacks of the three timers. */
    method FireTimer(timer: nat) returns (reported: bool)
      requires timer in live
      modifies this`listening, this`closed, this`destroyed, this`live, this`nextTimer, this`pingTimeoutId, this`pings,
        this`nextPing
      ensures View() == Fired(old(View()), options.Value(), timer)
      ensures (listening ==> old(listening)) && (old(live)[timer].kind != Idle ==> listening == old(listening))
      ensures reported <==> old(live)[timer].kind == Idle && old(hooks)
    {
      hide CommonPing, Cleanup;
      reported := false;
      var kind := live[timer].kind;
      DropTimer(timer);
      match kind
      case Interval => SendPing(false);
      case PingTimeout => destroyed := true;
      case Idle =>
        closed := true;
        CleanUp();
        reported := hooks;
    }

    /** The connection's close or error event, if still listened to. */
    method ConnectionEnds(failed: bool, now: nat) returns (reported: bool)
      requires Valid() && now >= clock
      modifies this`clock, this`live, this`listening, this`destroyed
      ensures View() == Step(old(View()), if failed then ConnFailed else ConnClosed, options.Value(), now) && Valid()
      ensures reported <==> old(listening) && hooks
      ensures !listening && clock == now && destroyed
    {
      hide Invariant;
      StepKeepsValid(if failed then ConnFailed else ConnClosed, now);
      clock := now;
      reported, destroyed := false, true;
      if listening {
        CleanUp();
        reported := hooks;
      }
    }

    /** A GOAWAY frame: ENHANCE_YOUR_CALM with `too_many_pings` doubles the shared interval. */
    method GoAwayReceived(many: bool, now: nat)
      requires Valid() && now >= clock
      modifies this`clock, this`tooManyPings, options`pingIntervalMs
      ensures View() == Step(old(View()), GoAway(many), old(options.Value()), now) && Valid()
      ensures options.pingIntervalMs ==
        if old(listening) && many && old(options.pingIntervalMs).Finite?
        then Finite(2 * old(options.pingIntervalMs).n) else old(options.pingIntervalMs)
      ensures clock == now
    {
      hide Invariant;
      StepKeepsValid(GoAway(many), now);
      clock := now;
      if listening && many {
        options.pingIntervalMs := Doubled(options.pingIntervalMs);
        tooManyPings := true;
      }
    }

    method AbortConnection(now: nat)
      requires Valid() && now >= clock
      modifies this`clock, this`destroyed
      ensures View() == Step(old(View()), AbortConn, options.Value(), now) && Valid()
      ensures clock == now && destroyed
    {
      hide Invariant;
      StepKeepsValid(AbortConn, now);
      clock := now;
      destroyed := true;
    }

    /** The manager enters the state: `onClose` and `onError` are set. */
    method Enter(now: nat)
      requires Valid() && now >= clock
      modifies this`clock, this`hooks
      ensures View() == Step(old(View()), Entered, options.Value(), now) && Valid()
      ensures hooks && listening == old(listening) && clock == now
    {
      hide Invariant;
      StepKeepsValid(Entered, now);
      clock := now;
      hooks := true;
    }

    /** `onExitState`. */
    method Exit(now: nat)
      requires Valid() && now >= clock
      modifies this`clock, this`hooks, this`live, this`listening
      ensures View() == Step(old(View()), Exited, options.Value(), now) && Valid()
      ensures !hooks && !listening && clock == now && live == map[]
    {
      hide Invariant;
      StepKeepsValid(Exited, now);
      InvariantForgetsInterval(View(), options.Value(), Infinite);
      ExitStopsTimers(View(), options.Value(), now);
      clock := now;
      CleanUp();
      hooks := false;
    }
  }
}

/** The session manager: one current state, entered and left by setState
    (packages/dubbo-node/src/http2-session-manager.ts). */
module Http2Manager {
  import opened Common
  import opened Errors
  import opened Http2Ready
  import opened ReadyObjects

  /** The manager's states. A connecting or verifying state is known by its promise. */
  datatype Phase =
    | Closed
    | Error(reason: Reason)
    | Connecting(promise: nat)
    | Verifying(promise: nat, target: ReadyState)
    | Ready(current: ReadyState)

  /** `closedOrError`: a cancellation closes, anything else is an error. */
  function ClosedOrError(reason: Reason): Phase {
    if reason.Dubbo? && reason.error.code == CANCELED then Closed else Error(reason)
  }

  const TOO_MANY_PINGS := Dubbo(NewError(
    "http/2 connection closed with error code ENHANCE_YOUR_CALM (0xb), too_many_pings, doubled the interval",
    RESOURCE_EXHAUSTED))

  /** A manager is left closed exactly by a cancellation (1), and in error with the reason itself otherwise, as
      by too_many_pings (8). */
  lemma ClosedIffCanceled(reason: Reason)
    ensures ClosedOrError(reason) == Closed <==> reason.Dubbo? && reason.error.code == 1
    ensures ClosedOrError(reason) != Closed ==> ClosedOrError(reason) == Error(reason)
    ensures ClosedOrError(TOO_MANY_PINGS) == Error(TOO_MANY_PINGS) && TOO_MANY_PINGS.error.code == 8
  {
  }

  datatype Settlement = Unsettled | Connected | Failed(reason: Reason)

  /** A connection attempt: its promise, whether the connect and error events of the new connection are
      still listened to, and whether that connection has been destroyed. */
  datatype Attempt = Attempt(promise: Settlement, listening: bool, destroyed: bool)

  /** A verification: the ready state, its PING, and whether it is known to be alive. */
  datatype Verification = Verification(target: ReadyState, ping: nat, alive: Option<bool>)

  /** `onExitState` of a connecting state: its connection is not listened to any more. */
  function Left(connecting: map<nat, Attempt>, s: Phase): map<nat, Attempt> {
    if s.Connecting? && s.promise in connecting
    then connecting[s.promise := connecting[s.promise].(listening := false)]
    else connecting
  }

  /** Leaving a state changes no attempt but its own, which is not heard any more. */
  lemma LeavingForgets(connecting: map<nat, Attempt>, s: Phase)
    ensures Left(connecting, s).Keys == connecting.Keys
    ensures forall p | p in connecting ::
      Left(connecting, s)[p] ==
        Attempt(connecting[p].promise, connecting[p].listening && s != Connecting(p), connecting[p].destroyed)
  {
  }

  /** `abort` of a connecting state: the connection is destroyed, and the promise rejected unless settled. */
  function Aborted(attempt: Attempt, reason: Reason): Attempt {
    attempt.(destroyed := true, promise := if attempt.promise.Unsettled? then Failed(reason) else attempt.promise)
  }

  /** The promises of `ping()` on a ready state that an answer, or the connection's error event, resolves. */
  function Judged(verifying: map<nat, Verification>, r: ReadyState, ping: Option<nat>, alive: bool)
    : map<nat, Verification>
  {
    map p | p in verifying ::
      var v := verifying[p];
      if v.target == r && v.alive == None && (ping == None || ping == Some(v.ping)) then v.(alive := Some(alive)) else v
  }

  /** The verifications are those from before, but for the unsettled ones of `r` that waited for `ping`, or for
      anything if `ping` is `None`: these are now known to be alive, or not. */
  ghost predicate SettledAs(before: map<nat, Verification>, after: map<nat, Verification>, r: ReadyState,
                            ping: Option<nat>, alive: bool)
  {
    && after.Keys == before.Keys
    && forall p | p in before ::
      && after[p].target == before[p].target && after[p].ping == before[p].ping
      && after[p].alive ==
         if before[p].alive.Some? then before[p].alive
         else if before[p].target == r && (ping.Some? ==> before[p].ping == ping.value) then Some(alive)
         else None
  }

  /** The ready state of a phase, if it has one. */
  function Current(phase: Phase): set<ReadyState> {
    if phase.Ready? then {phase.current} else {}
  }

  class SessionManager {
    const options: SharedOptions
    var s: Phase
    /** Every ready state ever created. */
    ghost var readies: set<ReadyState>
    /** The ready states whose verification was ever started. */
    ghost var verified: set<ReadyState>
    /** Promises whose callbacks have not run. Callbacks of states that were left may still run. */
    var connecting: map<nat, Attempt>
    var verifying: map<nat, Verification>
    var nextPromise: nat
    var clock: nat

    /** The hooks of a ready state are installed iff it is the one of `phase`; a connection that is being
        verified is not listened to. */
    ghost predicate HooksAre(phase: Phase)
      reads `readies, `verifying, `clock, options, readies
    {
      && (forall r | r in readies ::
            r.options == options && r.Valid() && r.clock <= clock && (r.hooks <==> phase == Ready(r)))
      && (forall p | p in verifying :: verifying[p].target in readies && !verifying[p].target.listening)
    }

    ghost predicate ReadiesHold()
      reads `s, `readies, `verifying, `clock, options, readies
    {
      && HooksAre(s)
      && (s.Ready? ==> s.current in readies)
      && (s.Verifying? ==> s.target in readies)
    }

    /** Promises are numbered, and an attempt whose events are listened to is not settled. */
    ghost predicate PromisesHold()
      reads `connecting, `verifying, `verified, `nextPromise
    {
      && (forall p | p in connecting ::
            p < nextPromise && (connecting[p].listening ==> connecting[p].promise.Unsettled?))
      && (forall p | p in verifying :: p < nextPromise && verifying[p].target in verified)
    }

    ghost predicate Coherent()
      reads this, options, readies
    {
      ReadiesHold() && PromisesHold()
    }

    /** Only the connection of the current attempt is listened to. */
    ghost predicate OnlyHears(a: Phase, b: Phase)
      reads `connecting
    {
      forall p | p in connecting && connecting[p].listening :: a == Connecting(p) || b == Connecting(p)
    }

    /** The promise the manager waits for is outstanding. */
    ghost predicate Awaited(next: Phase)
      reads `connecting, `verifying
    {
      && (next.Connecting? ==> next.promise in connecting)
      && (next.Verifying? ==> next.promise in verifying && verifying[next.promise].target == next.target)
    }

    /** Besides, the promise of the current state is outstanding. */
    ghost predicate Sound()
      reads this, options, readies
    {
      Coherent() && Awaited(s) && OnlyHears(s, s)
    }

    /** The current connection is listened to iff it was never verified. */
    ghost predicate Heard()
      reads `s, `verified, Current(s)
    {
      s.Ready? ==> (s.current.listening <==> s.current !in verified)
    }

    ghost predicate Valid()
      reads this, options, readies, Current(s)
    {
      Sound() && Heard()
    }

    constructor (o: Options)
      ensures Valid() && s == Closed && fresh(options) && options.Value() == o && readies == {} && verified == {}
      ensures connecting == map[] && verifying == map[] && nextPromise == 0 && clock == 0
    {
      options := new SharedOptions(o);
      s, readies, verified, connecting, verifying, nextPromise, clock := Closed, {}, {}, map[], map[], 0, 0;
    }

    /** How leaving and entering a ready state changes it. */
    ghost predicate LeftAt(r: ReadyState, before: State, now: nat)
      requires now >= before.clock
      reads r, options
    {
      r.View() == Step(before, Exited, options.Value(), now) && !r.listening && r.live == map[] && r.clock == now
    }

    ghost predicate EnteredAt(r: ReadyState, before: State, now: nat)
      requires now >= before.clock
      reads r, options
    {
      r.View() == Step(before, Entered, options.Value(), now)
    }

    /** `setState`: leave the current state, then install the hooks of a ready one. */
    method SetState(next: Phase, now: nat)
      requires Coherent() && now >= clock && OnlyHears(s, next)
      requires next.Ready? ==> next.current in readies
      requires next.Verifying? ==> next.target in readies
      requires next.Connecting? ==> s != next
      modifies this`s, this`clock, this`connecting, Current(s), Current(next)
      ensures Coherent() && s == next && clock == now && OnlyHears(next, next)
      ensures connecting == Left(old(connecting), old(s))
      ensures old(s).Ready? && old(s) != next ==> LeftAt(old(s).current, old(s.current.View()), now)
      ensures next.Ready? && old(s) != next ==> EnteredAt(next.current, old(next.current.View()), now)
      ensures next.Ready? && old(s) != next ==> next.current.listening == old(next.current.listening)
      ensures next.Ready? && old(s) == next ==> !next.current.listening
      ensures old(s).Ready? ==> old(s).current.Connection() == old(s.current.Connection())
      ensures next.Ready? ==> next.current.Connection() == old(next.current.Connection())
    {
      hide ReadiesHold, PromisesHold;
      LeaveAttempt(next);
      SwitchReady(next, now);
    }

    /** `onExitState` of a connecting state. */
    method LeaveAttempt(next: Phase)
      requires PromisesHold() && OnlyHears(s, next) && (next.Connecting? ==> s != next)
      modifies this`connecting
      ensures PromisesHold() && OnlyHears(next, next) && connecting == Left(old(connecting), old(s))
    {
      if s.Connecting? {
        if s.promise in connecting {
          connecting := connecting[s.promise := connecting[s.promise].(listening := false)];
        }
      }
    }

    /** `onExitState` of a ready state, and entering one. */
    method SwitchReady(next: Phase, now: nat)
      requires ReadiesHold() && now >= clock
      requires next.Ready? ==> next.current in readies
      requires next.Verifying? ==> next.target in readies
      modifies this`s, this`clock, Current(s), Current(next)
      ensures ReadiesHold() && s == next && clock == now
      ensures old(s).Ready? && old(s) != next ==> LeftAt(old(s).current, old(s.current.View()), now)
      ensures next.Ready? && old(s) != next ==> EnteredAt(next.current, old(next.current.View()), now)
      ensures next.Ready? && old(s) != next ==> next.current.listening == old(next.current.listening)
      ensures next.Ready? && old(s) == next ==> !next.current.listening
      ensures old(s).Ready? ==> old(s).current.Connection() == old(s.current.Connection())
      ensures next.Ready? ==> next.current.Connection() == old(next.current.Connection())
    {
      hide HooksAre, ReadyState.Connection, ReadyState.View, Step;
      ExitReady(now);
      EnterReady(next, now);
      s := next;
    }

    method ExitReady(now: nat)
      requires ReadiesHold() && now >= clock
      modifies this`clock, Current(s)
      ensures HooksAre(Closed) && clock == now
      ensures s.Ready? ==> LeftAt(s.current, old(s.current.View()), now)
      ensures s.Ready? ==> s.current.Connection() == old(s.current.Connection())
    {
      hide Step, Invariant, ReadyState.View;
      clock := now;
      if s.Ready? {
        s.current.Exit(now);
      }
    }

    method EnterReady(next: Phase, now: nat)
      requires HooksAre(Closed) && now == clock && (next.Ready? ==> next.current in readies)
      modifies Current(next)
      ensures HooksAre(next)
      ensures next.Ready? ==> EnteredAt(next.current, old(next.current.View()), now)
      ensures next.Ready? ==> next.current.listening == old(next.current.listening)
      ensures next.Ready? ==> next.current.Connection() == old(next.current.Connection())
    {
      hide Step, Invariant, ReadyState.View;
      if next.Ready? {
        next.current.Enter(now);
      }
    }

    /** `connect(...)`: a new connection, its events listened to, and a promise. */
    method NewConnecting() returns (next: Phase)
      requires Valid()
      modifies this`connecting, this`nextPromise
      ensures Coherent() && next == Connecting(old(nextPromise)) && OnlyHears(s, next)
        && nextPromise == old(nextPromise) + 1
      ensures connecting == old(connecting)[old(nextPromise) := Attempt(Unsettled, true, false)]
      ensures s != next
    {
      hide Step, Invariant, ReadyState.View;
      next := Connecting(nextPromise);
      connecting := connecting[nextPromise := Attempt(Unsettled, true, false)];
      nextPromise := nextPromise + 1;
    }

    /** The first part of `gotoReady`: verify a ready connection that has been silent for longer than a finite
        interval, whatever happened to it before, or connect if there is none. `verify` sends its PING before the
        ready state is left, so leaving it stops the timeout just started. */
    method GotoReady(now: nat)
      requires Valid() && now >= clock
      modifies this`s, this`clock, this`connecting, this`verifying, this`verified, this`nextPromise
      modifies if s.Ready? && s.current.RequiresVerify(now) then {s.current} else {}
      ensures Valid() && clock == now
      ensures if old(s).Ready? && options.pingIntervalMs.Finite?
          && now - old(s.current.lastAliveAt) > options.pingIntervalMs.n
        then
          var r, p := old(s).current, old(nextPromise);
          && s == Verifying(p, r) && SentToVerify(r, old(s.current.View()), now)
          && verifying == old(verifying)[p := Verification(r, old(s.current.nextPing), None)]
          && r.pings == old(s.current.pings[s.current.nextPing := true])
          && connecting == old(connecting) && verified == old(verified) + {r} && nextPromise == p + 1
        else if old(s).Closed? || old(s).Error? then
          var p := old(nextPromise);
          && s == Connecting(p) && connecting == old(connecting)[p := Attempt(Unsettled, true, false)]
          && verifying == old(verifying) && verified == old(verified) && nextPromise == p + 1
        else
          && s == old(s) && connecting == old(connecting) && verifying == old(verifying)
          && verified == old(verified) && nextPromise == old(nextPromise)
    {
      hide Step, Invariant, ReadyState.View, ReadiesHold, PromisesHold, HooksAre;
      CurrentIsKnown();
      if s.Ready? && s.current.RequiresVerify(now) {
        Verify(now);
      } else if s.Closed? || s.Error? {
        Tick(now);
        var next := NewConnecting();
        SetState(next, now);
      } else {
        Tick(now);
      }
    }

    /** A ready state whose verification PING was sent, and which was then left. */
    ghost predicate SentToVerify(r: ReadyState, before: State, now: nat)
      requires now >= before.clock
      reads r, options
    {
      LeftAt(r, Step(before, VerifyPing, options.Value(), now), now)
    }

    /** `setState(verify(...))`. */
    method Verify(now: nat)
      requires Valid() && now >= clock && s.Ready?
      modifies this`s, this`clock, this`connecting, this`verifying, this`verified, this`nextPromise, Current(s)
      ensures Valid() && clock == now
      ensures var r, p := old(s).current, old(nextPromise);
        && s == Verifying(p, r) && SentToVerify(r, old(s.current.View()), now)
        && verifying == old(verifying)[p := Verification(r, old(s.current.nextPing), None)]
        && r.pings == old(s.current.pings[s.current.nextPing := true])
        && connecting == old(connecting) && verified == old(verified) + {r} && nextPromise == p + 1
    {
      hide Step, Invariant, ReadyState.View, ReadiesHold, PromisesHold, HooksAre;
      var r := s.current;
      var ping := r.nextPing;
      var next := Verifying(nextPromise, r);
      SendVerification(now);
      CurrentIsKnown();
      ghost var facts := r.Connection();
      SetState(next, now);
      assert r.Connection() == facts;
      AwaitVerification(r, ping);
    }

    /** The promise of the verification is outstanding. */
    method AwaitVerification(r: ReadyState, ping: nat)
      requires Coherent() && s == Verifying(nextPromise, r) && !r.listening && OnlyHears(s, s)
      modifies this`verifying, this`verified, this`nextPromise
      ensures Valid() && verifying == old(verifying)[old(nextPromise) := Verification(r, ping, None)]
      ensures verified == old(verified) + {r} && nextPromise == old(nextPromise) + 1
    {
      hide ReadiesHold, HooksAre, Step, Invariant, ReadyState.Valid, ReadyState.View;
      AddVerification(r, ping);
      CountVerification(r, ping);
    }

    method AddVerification(r: ReadyState, ping: nat)
      requires ReadiesHold() && s.Verifying? && s.target == r && !r.listening
      modifies this`verifying
      ensures ReadiesHold() && verifying == old(verifying)[nextPromise := Verification(r, ping, None)]
    {
      hide ReadyState.Valid;
      verifying := verifying[nextPromise := Verification(r, ping, None)];
    }

    method CountVerification(r: ReadyState, ping: nat)
      requires nextPromise in verifying && verifying[nextPromise] == Verification(r, ping, None)
      requires forall p | p in verifying && p != nextPromise :: p < nextPromise && verifying[p].target in verified
      requires forall p | p in connecting ::
        p < nextPromise && (connecting[p].listening ==> connecting[p].promise.Unsettled?)
      modifies this`verified, this`nextPromise
      ensures PromisesHold() && verified == old(verified) + {r} && nextPromise == old(nextPromise) + 1
    {
      verified := verified + {r};
      nextPromise := nextPromise + 1;
    }

    /** `stateReady.ping()` on the current state. */
    method SendVerification(now: nat)
      requires Valid() && now >= clock && s.Ready?
      modifies this`clock, Current(s)
      ensures Valid() && clock == now && s.current.clock == now
      ensures s.current.View() == Step(old(s.current.View()), VerifyPing, options.Value(), now)
      ensures s.current.pings == old(s.current.pings[s.current.nextPing := true])
    {
      hide Step, Invariant, ReadyState.View, PromisesHold;
      clock := now;
      s.current.Ping(now);
    }

    lemma CurrentIsKnown()
      requires Valid()
      ensures s.Ready? ==> s.current in readies && s.current.options == options
      ensures s.Verifying? ==> s.target in readies
    {
    }

    /** Time passes. */
    method Tick(now: nat)
      requires Valid() && now >= clock
      modifies this`clock
      ensures Valid() && clock == now
    {
      hide Step, Invariant, ReadyState.View, PromisesHold;
      clock := now;
    }

    /** The connect event of an attempt's connection, or its error event: heard only while the manager is
        in that connecting state. */
    method AttemptEvent(promise: nat, failure: Option<Reason>, now: nat)
      requires Valid() && now >= clock && promise in connecting
      modifies this`clock, this`connecting
      ensures Valid() && clock == now
      ensures connecting ==
        if old(connecting)[promise].listening
        then old(connecting)[promise := old(connecting)[promise].(
               listening := false, promise := if failure.Some? then Failed(failure.value) else Connected)]
        else old(connecting)
      ensures old(connecting)[promise].listening ==> s == Connecting(promise)
    {
      hide Step, Invariant, ReadyState.View;
      Tick(now);
      hide ReadiesHold;
      if connecting[promise].listening {
        var outcome := if failure.Some? then Failed(failure.value) else Connected;
        connecting := connecting[promise := connecting[promise].(listening := false, promise := outcome)];
      }
    }

    /** The callbacks of a connecting state's promise, possibly after the state was left. A connection
        destroyed in the meantime becomes current all the same. */
    method ConnectSettled(promise: nat, now: nat)
      requires Valid() && now >= clock && promise in connecting && !connecting[promise].promise.Unsettled?
      modifies this`s, this`clock, this`connecting, this`readies, Current(s)
      ensures Valid() && clock == now
      ensures connecting == Left(old(connecting), old(s)) - {promise}
      ensures old(s).Ready? ==> LeftAt(old(s).current, old(s.current.View()), now) || s == old(s)
      ensures if old(connecting)[promise].promise.Failed?
        then s == ClosedOrError(old(connecting)[promise].promise.reason) && readies == old(readies)
        else
          && s.Ready? && fresh(s.current) && s.current.listening && readies == old(readies) + {s.current}
          && s.current.options == options
          && s.current.Connection() == Facts(false, old(connecting)[promise].destroyed, 0, now, map[], 0)
    {
      hide ReadiesHold, HooksAre, PromisesHold, ReadyState.View, Step, Invariant;
      var attempt := connecting[promise];
      if attempt.promise.Failed? {
        SetState(ClosedOrError(attempt.promise.reason), now);
      } else {
        Establish(attempt.destroyed, now);
      }
      DropAttempt(promise);
    }

    /** A promise whose callbacks have run. */
    method DropAttempt(promise: nat)
      requires Valid() && s != Connecting(promise)
      modifies this`connecting
      ensures Valid() && connecting == old(connecting) - {promise}
    {
      hide ReadiesHold;
      connecting := connecting - {promise};
    }

    method DropVerification(promise: nat)
      requires Valid() && !(s.Verifying? && s.promise == promise)
      modifies this`verifying
      ensures Valid() && verifying == old(verifying) - {promise}
    {
      hide Step, Invariant, ReadyState.View;
      verifying := verifying - {promise};
    }

    /** `setState(ready(conn, options))`. */
    method Establish(destroyed: bool, now: nat)
      requires Valid() && now >= clock
      modifies this`s, this`clock, this`connecting, this`readies, Current(s)
      ensures Valid() && clock == now && connecting == Left(old(connecting), old(s))
      ensures old(s).Ready? ==> LeftAt(old(s).current, old(s.current.View()), now)
      ensures s.Ready? && fresh(s.current) && s.current.listening && readies == old(readies) + {s.current}
      ensures s.current.options == options && s.current.Connection() == Facts(false, destroyed, 0, now, map[], 0)
    {
      hide ReadiesHold, HooksAre, PromisesHold, ReadyState.View, Step, Invariant;
      var r := NewReady(destroyed, now);
      ghost var facts := r.Connection();
      EnterNew(r, now);
      assert r.Connection() == facts;
    }

    /** `ready(conn, options)` on a connection that may have been destroyed. */
    method NewReady(destroyed: bool, now: nat) returns (r: ReadyState)
      requires Valid() && now >= clock
      modifies this`readies, this`clock
      ensures Valid() && clock == now && fresh(r) && readies == old(readies) + {r} && s != Ready(r) && r !in verified
      ensures r.options == options && r.listening && r.Connection() == Facts(false, destroyed, 0, now, map[], 0)
    {
      hide Step, Invariant, PromisesHold, ReadyState.View;
      Tick(now);
      r := NewConnection(destroyed, now);
      readies := readies + {r};
    }

    method NewConnection(destroyed: bool, now: nat) returns (r: ReadyState)
      ensures fresh(r) && r.options == options && r.Valid() && r.clock == now && !r.hooks
      ensures r.listening && r.Connection() == Facts(false, destroyed, 0, now, map[], 0)
    {
      hide Step, Invariant, ReadyState.View;
      r := new ReadyState(options, now);
      if destroyed {
        r.AbortConnection(now);
      }
    }

    method EnterNew(r: ReadyState, now: nat)
      requires Valid() && now >= clock && r in readies && s != Ready(r) && r.listening && r !in verified
      modifies this`s, this`clock, this`connecting, Current(s), r
      ensures Valid() && s == Ready(r) && r.listening && clock == now && connecting == Left(old(connecting), old(s))
      ensures old(s).Ready? ==> LeftAt(old(s).current, old(s.current.View()), now)
      ensures r.Connection() == old(r.Connection())
    {
      hide Step, Invariant, ReadyState.View, ReadiesHold, PromisesHold, HooksAre;
      SetState(Ready(r), now);
    }

    /** The callbacks of a verifying state's promise, possibly after the state was left. A connection known to
        be alive becomes current again, but its close and error events are not listened to any more; a dead
        one is replaced by a new connection, unless connecting throws. */
    method VerifySettled(promise: nat, failure: Option<Reason>, now: nat)
      requires Valid() && now >= clock && promise in verifying && verifying[promise].alive.Some?
      modifies this`s, this`clock, this`connecting, this`verifying, this`nextPromise
      modifies Current(s), verifying[promise].target
      ensures Valid() && clock == now && verifying == old(verifying) - {promise}
      ensures old(s).Ready? ==> LeftAt(old(s).current, old(s.current.View()), now) || s == old(s)
      ensures if old(verifying)[promise].alive.value then
          && s == Ready(old(verifying)[promise].target) && !s.current.listening
          && s.current.Connection() == old(verifying[promise].target.Connection())
          && connecting == Left(old(connecting), old(s)) && nextPromise == old(nextPromise)
        else if failure.Some? then
          && s == ClosedOrError(failure.value)
          && connecting == Left(old(connecting), old(s)) && nextPromise == old(nextPromise)
        else
          && s == Connecting(old(nextPromise)) && nextPromise == old(nextPromise) + 1
          && connecting == Left(old(connecting), old(s))[old(nextPromise) := Attempt(Unsettled, true, false)]
    {
      hide ReadiesHold, HooksAre, PromisesHold, ReadyState.View, Step, Invariant;
      var v := verifying[promise];
      if v.alive.value {
        VerifiedIsKnown(promise);
        Return(v.target, now);
      } else {
        Reconnect(failure, now);
      }
      DropVerification(promise);
    }

    lemma VerifiedIsKnown(promise: nat)
      requires Valid() && promise in verifying
      ensures var r := verifying[promise].target;
        r in readies && r in verified && !r.listening
    {
    }

    /** A verified ready state is entered again. */
    method Return(r: ReadyState, now: nat)
      requires Valid() && now >= clock && r in readies && r in verified && !r.listening
      modifies this`s, this`clock, this`connecting, Current(s), r
      ensures Valid() && clock == now && s == Ready(r) && !r.listening && connecting == Left(old(connecting), old(s))
      ensures r.Connection() == old(r.Connection())
      ensures old(s).Ready? ==> LeftAt(old(s).current, old(s.current.View()), now) || s == old(s)
    {
      hide Step, Invariant, ReadyState.View, ReadiesHold, PromisesHold, HooksAre;
      SetState(Ready(r), now);
    }

    /** `connect(...)` in place of a dead connection. */
    method Reconnect(failure: Option<Reason>, now: nat)
      requires Valid() && now >= clock
      modifies this`s, this`clock, this`connecting, this`nextPromise, Current(s)
      ensures Valid() && clock == now
      ensures old(s).Ready? ==> LeftAt(old(s).current, old(s.current.View()), now)
      ensures if failure.Some? then
          && s == ClosedOrError(failure.value)
          && connecting == Left(old(connecting), old(s)) && nextPromise == old(nextPromise)
        else
          && s == Connecting(old(nextPromise)) && nextPromise == old(nextPromise) + 1
          && connecting == Left(old(connecting), old(s))[old(nextPromise) := Attempt(Unsettled, true, false)]
    {
      hide Step, Invariant, ReadyState.View, ReadiesHold, HooksAre;
      if failure.Some? {
        SetState(ClosedOrError(failure.value), now);
      } else {
        var next := NewConnecting();
        SetState(next, now);
      }
    }

    /** `abort(reason)`. A connecting state rejects its promise too, so that its callback runs later. */
    method Abort(reason: Reason, now: nat)
      requires Valid() && now >= clock
      modifies this`s, this`clock, this`connecting, Current(s), if s.Verifying? then {s.target} else {}
      ensures Valid() && clock == now
      ensures s == if reason.Dubbo? && reason.error.code == 1 then Closed else Error(reason)
      ensures old(s).Ready? ==> old(s).current.destroyed
      ensures old(s).Verifying? ==> old(s).target.destroyed
      ensures connecting ==
        if old(s).Connecting?
        then old(connecting)[old(s).promise := Aborted(old(connecting)[old(s).promise], reason).(listening := false)]
        else old(connecting)
      ensures old(s).Connecting? ==>
        var before, after := old(connecting)[old(s).promise], connecting[old(s).promise];
        && after.destroyed && !after.listening
        && after.promise == if before.promise.Unsettled? then Failed(reason) else before.promise
    {
      hide ReadiesHold, HooksAre, ReadyState.View, Step;
      ghost var was := s;
      AbortCurrent(reason, now);
      assert was.Ready? ==> was.current.Connection().destroyed;
      SetState(ClosedOrError(reason), now);
      assert was.Ready? ==> was.current.Connection().destroyed;
    }

    /** `abort` of the current state. */
    method AbortCurrent(reason: Reason, now: nat)
      requires Valid() && now >= clock
      modifies this`clock, this`connecting, if s.Ready? then {s.current} else if s.Verifying? then {s.target} else {}
      ensures Valid() && clock == now
      ensures s.Ready? ==> s.current.destroyed
      ensures s.Verifying? ==> s.target.destroyed
      ensures connecting ==
        if s.Connecting?
        then old(connecting)[s.promise := Aborted(old(connecting)[s.promise], reason).(listening := false)]
        else old(connecting)
    {
      hide Step, Invariant, ReadyState.View, PromisesHold;
      clock := now;
      if s.Ready? {
        s.current.AbortConnection(now);
      } else if s.Verifying? {
        s.target.AbortConnection(now);
      } else if s.Connecting? {
        AbortAttempt(reason);
      }
    }

    method AbortAttempt(reason: Reason)
      requires Valid() && s.Connecting?
      modifies this`connecting
      ensures Valid()
      ensures connecting ==
        old(connecting)[s.promise := Aborted(old(connecting)[s.promise], reason).(listening := false)]
    {
      hide ReadiesHold;
      connecting := connecting[s.promise := Aborted(connecting[s.promise], reason).(listening := false)];
    }

    /** `notifyResponseByteRead(stream)`. */
    method NotifyResponseByteRead(sameSession: bool, now: nat)
      requires Valid() && now >= clock
      modifies this`clock, if s.Ready? then {s.current} else {}
      ensures Valid() && s == old(s)
      ensures s.Ready? ==> s.current.View() == Step(old(s.current.View()), BytesRead(sameSession), options.Value(), now)
    {
      hide Step, Invariant, ReadyState.View;
      clock := now;
      if s.Ready? {
        s.current.ResponseByteRead(sameSession, now);
      }
    }

    /** The close or error event of a ready connection. It changes the manager's state only if that ready
        state is the current one, and its connection is still listened to. An error event also settles the
        verifications of the connection that no answer has settled. */
    method ConnectionEnded(r: ReadyState, error: Option<Reason>, now: nat)
      requires Valid() && now >= clock && r in readies
      modifies this`s, this`clock, this`connecting, this`verifying, r
      ensures Valid() && clock == now && r.destroyed && !r.listening && connecting == old(connecting)
      ensures if error.Some? then SettledAs(old(verifying), verifying, r, None, false) else verifying == old(verifying)
      ensures s == if old(s) == Ready(r) && old(r.listening)
        then
          (if error.None? then Closed
           else ClosedOrError(if old(r.tooManyPings) then TOO_MANY_PINGS else error.value))
        else old(s)
      ensures old(s) == Ready(r) ==> (s == old(s) <==> r in verified)
      ensures s == old(s) ==>
        r.View() == Step(old(r.View()), if error.Some? then ConnFailed else ConnClosed, options.Value(), now)
    {
      hide ReadiesHold, PromisesHold, Step, Judged, ReadyState.View;
      var many := r.tooManyPings;
      if error.Some? {
        Judge(r, None, false);
      }
      var reported := PassEnd(r, error.Some?, now);
      if reported {
        ReportEnd(r, if error.None? then Closed else ClosedOrError(if many then TOO_MANY_PINGS else error.value), now);
      }
    }

    method PassEnd(r: ReadyState, failed: bool, now: nat) returns (reported: bool)
      requires Valid() && now >= clock && r in readies
      modifies this`clock, r
      ensures Sound() && (!reported ==> Heard()) && clock == now && r.destroyed && !r.listening
      ensures reported <==> old(r.listening) && s == Ready(r)
      ensures r.View() == Step(old(r.View()), if failed then ConnFailed else ConnClosed, options.Value(), now)
    {
      hide Step, Invariant, ReadyState.View, PromisesHold;
      clock := now;
      reported := r.ConnectionEnds(failed, now);
    }

    /** The hooks `onClose` and `onError` of the current ready state. */
    method ReportEnd(r: ReadyState, next: Phase, now: nat)
      requires Sound() && now >= clock && s == Ready(r) && (next.Closed? || next.Error?)
      modifies this`s, this`clock, this`connecting, r
      ensures Valid() && s == next && clock == now && connecting == old(connecting)
      ensures r.destroyed == old(r.destroyed) && LeftAt(r, old(r.View()), now)
    {
      hide Step, Invariant, ReadyState.View;
      ghost var facts := r.Connection();
      SetState(next, now);
      assert r.Connection() == facts;
    }

    /** A timer of a ready state fires. Only the idle timeout of the current one changes the state. */
    method ReadyTimerFired(r: ReadyState, timer: nat, now: nat)
      requires Valid() && now >= clock && r in readies && Enabled(r.View(), TimerFires(timer), now)
      modifies this`s, this`clock, this`connecting, r
      ensures Valid() && clock == now && connecting == old(connecting)
      ensures s == if old(s) == Ready(r) && old(r.live)[timer].kind == Idle then Closed else old(s)
      ensures s == old(s) ==> r.View() == Step(old(r.View()), TimerFires(timer), options.Value(), now)
    {
      hide Step, Invariant, Enabled, ReadyState.View, ReadiesHold, PromisesHold;
      var reported := PassTimer(r, timer, now);
      if reported {
        ReportEnd(r, Closed, now);
      }
    }

    method PassTimer(r: ReadyState, timer: nat, now: nat) returns (reported: bool)
      requires Valid() && now >= clock && r in readies && Enabled(r.View(), TimerFires(timer), now)
      modifies this`clock, r
      ensures Sound() && (!reported ==> Heard()) && clock == now && timer in old(r.live)
      ensures reported <==> s == Ready(r) && old(r.live)[timer].kind == Idle
      ensures r.View() == Step(old(r.View()), TimerFires(timer), options.Value(), now)
    {
      hide Step, Invariant, Enabled, ReadyState.View, PromisesHold;
      clock := now;
      reported := r.TimerFired(timer, now);
    }

    /** Any other event of a ready state, current or not: the manager's state stays. A timely answer to a
        verification PING settles the verification. */
    method ReadyEvent(r: ReadyState, e: Event, now: nat)
      requires Valid() && now >= clock && r in readies && Enabled(r.View(), e, now)
      requires e.Register? || e.Response? || e.StreamClosed? || e.PingAnswered?
      modifies this`clock, this`verifying, r
      ensures Valid() && s == old(s) && clock == now
      ensures r.View() == Step(old(r.View()), e, options.Value(), now) && r.listening == old(r.listening)
      ensures
        if e.PingAnswered? && !e.failed && (options.pingTimeoutMs.Finite? ==> e.duration <= options.pingTimeoutMs.n)
        then SettledAs(old(verifying), verifying, r, Some(e.ping), true) else verifying == old(verifying)
    {
      PassEvent(r, e, now);
      if e.PingAnswered? && !e.failed && !Exceeds(e.duration, options.pingTimeoutMs) {
        Judge(r, Some(e.ping), true);
      }
    }

    /** Settle verifications of a connection. */
    method Judge(r: ReadyState, ping: Option<nat>, alive: bool)
      requires Valid()
      modifies this`verifying
      ensures Valid() && verifying == Judged(old(verifying), r, ping, alive)
      ensures SettledAs(old(verifying), verifying, r, ping, alive)
    {
      hide Step, Invariant, ReadyState.View;
      verifying := Judged(verifying, r, ping, alive);
    }

    method PassEvent(r: ReadyState, e: Event, now: nat)
      requires Valid() && now >= clock && r in readies && Enabled(r.View(), e, now)
      requires e.Register? || e.Response? || e.StreamClosed? || e.PingAnswered?
      modifies this`clock, r
      ensures Valid() && clock == now
      ensures r.View() == Step(old(r.View()), e, options.Value(), now) && r.listening == old(r.listening)
    {
      hide Step, Invariant, Enabled, ReadyState.View, PromisesHold;
      clock := now;
      r.HandleEvent(e, now);
    }

    /** A GOAWAY frame on a ready connection: it may double the ping interval of the whole manager. */
    method ReadyGoAway(r: ReadyState, many: bool, now: nat)
      requires Valid() && now >= clock && r in readies
      modifies this`clock, r, options`pingIntervalMs
      ensures Valid() && s == old(s) && clock == now
      ensures r.View() == Step(old(r.View()), GoAway(many), old(options.Value()), now)
      ensures options.pingIntervalMs ==
        if old(r.listening) && many && old(options.pingIntervalMs).Finite?
        then Finite(2 * old(options.pingIntervalMs).n) else old(options.pingIntervalMs)
    {
      hide Step, Invariant, PromisesHold, ReadyState.View;
      clock := now;
      r.GoAwayReceived(many, now);
    }
  }

  /** Through verification and back: a silent connection whose PING is answered becomes current again, but
      its close and error events are not listened to any more. */
  method VerificationCompletes(m: SessionManager, now: nat)
    requires m.Valid() && now >= m.clock && m.s.Ready? && m.options.pingIntervalMs.Finite?
    requires now - m.s.current.lastAliveAt > m.options.pingIntervalMs.n
    modifies m, m.s.current
    ensures m.Valid() && m.clock == now && m.s == old(m.s) && m.s.current in m.verified && !m.s.current.listening
    ensures m.readies == old(m.readies) && m.s.current.lastAliveAt == now
  {
    hide Step, Invariant, SessionManager.Sound;
    var r, promise, ping := m.s.current, m.nextPromise, m.s.current.nextPing;
    m.CurrentIsKnown();
    m.GotoReady(now);
    ghost var waiting := r.View();
    m.ReadyEvent(r, PingAnswered(ping, false, 0), now);
    VerificationNoted(waiting, ping, m.options.Value(), now);
    assert r.lastAliveAt == now;
    ghost var facts := r.Connection();
    m.VerifySettled(promise, None, now);
    assert r.Connection() == facts;
  }

  /** The answer to a verification PING is a sign of life. */
  lemma VerificationNoted(before: State, ping: nat, o: Options, now: nat)
    requires ping in before.pings && before.pings[ping] && now >= before.clock
    ensures Enabled(before, PingAnswered(ping, false, 0), now)
    ensures Step(before, PingAnswered(ping, false, 0), o, now).lastAliveAt == now
  {
  }

  /** And the other way: a silent connection that fails while it is verified is replaced by a new one. */
  method DeadConnectionIsReplaced(m: SessionManager, error: Reason, now: nat)
    requires m.Valid() && now >= m.clock && m.s.Ready? && m.options.pingIntervalMs.Finite?
    requires now - m.s.current.lastAliveAt > m.options.pingIntervalMs.n
    modifies m, m.s.current
    ensures m.Valid() && m.clock == now && m.s.Ready? && fresh(m.s.current)
    ensures m.s.current.listening && m.s.current !in m.verified && !m.s.current.destroyed
  {
    hide Step, Invariant, SessionManager.Sound;
    var r, promise := m.s.current, m.nextPromise;
    m.CurrentIsKnown();
    m.GotoReady(now);
    m.ConnectionEnded(r, Some(error), now);
    var attempt := m.nextPromise;
    m.VerifySettled(promise, None, now);
    m.AttemptEvent(attempt, None, now);
    m.ConnectSettled(attempt, now);
    assert m.s.current.Connection().destroyed == false;
  }

  /** A new manager's first connection. */
  method FirstConnection(o: Options, now: nat) returns (m: SessionManager)
    ensures m.Valid() && fresh(m) && m.clock == now && m.options.Value() == o && fresh(m.options)
    ensures m.s.Ready? && fresh(m.s.current) && m.s.current.options == m.options && m.s.current.lastAliveAt == now
    ensures m.s.current.listening && m.verified == {}
  {
    hide Step, Invariant, SessionManager.Sound;
    m := new SessionManager(o);
    m.GotoReady(now);
    m.AttemptEvent(0, None, now);
    m.ConnectSettled(0, now);
    assert m.s.current.Connection().lastAliveAt == now;
  }

  /** A whole run: connect, verify the connection after a silence, and it is current again; then it closes,
      and the manager does not notice. */
  method VerifiedConnectionIsDeaf(o: Options, t: nat, u: nat, v: nat) returns (m: SessionManager, r: ReadyState)
    requires t <= u <= v && Exceeds(u - t, o.pingIntervalMs)
    ensures m.Valid() && m.s == Ready(r) && r.destroyed && !r.listening
  {
    hide Step, Invariant, SessionManager.Sound;
    m := FirstConnection(o, t);
    r := m.s.current;
    VerificationCompletes(m, u);
    m.CurrentIsKnown();
    m.ConnectionEnded(r, None, v);
  }

  /** A connection verified once is verified again after every silence: connect, verify after a first silence, and
      the next request verifies it again iff the connection has been silent for too long once more. */
  method SilentAgain(o: Options, t: nat, u: nat, v: nat) returns (m: SessionManager, r: ReadyState)
    requires t <= u <= v && o.pingIntervalMs.Finite? && u - t > o.pingIntervalMs.n
    ensures m.Valid() && m.clock == v && r in m.verified
    ensures if v - u > o.pingIntervalMs.n then m.s.Verifying? && m.s.target == r else m.s == Ready(r)
  {
    hide Step, Invariant, SessionManager.Sound;
    m := FirstConnection(o, t);
    r := m.s.current;
    VerificationCompletes(m, u);
    m.GotoReady(v);
  }

  /** The same run without the silence: nothing is verified, and the manager notices. */
  method UnverifiedConnectionIsHeard(o: Options, t: nat, u: nat, v: nat) returns (m: SessionManager)
    requires t <= u <= v && !Exceeds(u - t, o.pingIntervalMs)
    ensures m.Valid() && m.s == Closed
  {
    hide Step, Invariant, SessionManager.Sound;
    m := FirstConnection(o, t);
    var r := m.s.current;
    m.GotoReady(u);
    m.CurrentIsKnown();
    m.ConnectionEnded(r, None, v);
  }

  /** Another: a connection aborted right after its connect event, whose callback has not run yet, becomes
      the current ready state although it is destroyed. */
  method AbortedConnectionIsReady(o: Options, reason: Reason) returns (m: SessionManager)
    ensures m.Valid() && m.s.Ready? && m.s.current.destroyed
  {
    hide Step, Invariant, SessionManager.Sound;
    m := new SessionManager(o);
    m.GotoReady(0);
    m.AttemptEvent(0, None, 0);
    m.Abort(reason, 0);
    m.ConnectSettled(0, 0);
    assert m.s.current.Connection().destroyed;
  }
}
