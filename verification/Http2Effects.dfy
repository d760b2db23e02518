/** What every event of a ready state does, field by field and timer by timer, and what becomes of a PING
    nobody answers (packages/dubbo-node/src/http2-session-manager.ts, ready()). */
module ReadyEffects {
  import opened Common
  import opened Http2Ready

  // ----- fields

  /** The timer that fires is of a kind. */
  predicate Fires(s: State, e: Event, kind: Kind) {
    e.TimerFires? && e.timer in s.timers.live && s.timers.live[e.timer].kind == kind
  }

  /** An answer that comes later than `pingTimeoutMs`. */
  predicate TooLate(e: Event, o: Options) {
    e.PingAnswered? && !e.failed && o.pingTimeoutMs.Finite? && e.duration > o.pingTimeoutMs.n
  }

  // The functions of the single events change these fields, and the timers.

  lemma AliveShape(s: State, o: Options)
    ensures var t := Alive(s, o);
      t == s.(lastAliveAt := s.clock, signs := s.signs + [s.clock], timers := t.timers)
  {
    hide ResetPingInterval;
  }

  lemma RegisteredShape(s: State, o: Options, stream: nat)
    ensures var t := Registered(s, o, stream);
      t == s.(streamCount := s.streamCount + 1, open := s.open + {stream}, awaiting := s.awaiting + {stream},
              timers := t.timers)
  {
    hide ResetPingInterval, StopIdleTimeout;
  }

  lemma UnregisteredShape(s: State, o: Options, stream: nat)
    ensures var t := Unregistered(s, o, stream);
      t == s.(streamCount := s.streamCount - 1, open := s.open - {stream}, lastBusy := s.clock, timers := t.timers)
  {
    hide ResetPingInterval, SetTimer;
  }

  lemma PingShape(s: State, o: Options, verification: bool)
    ensures var t := CommonPing(s, o, verification);
      t == s.(pings := s.pings[s.nextPing := verification], nextPing := s.nextPing + 1, timers := t.timers)
  {
    hide SetTimer, ClearTimer;
  }

  lemma CleanupShape(s: State)
    ensures Cleanup(s) == s.(listening := false, timers := Cleanup(s).timers)
  {
    hide StopPingInterval, StopIdleTimeout;
  }

  lemma AnsweredShape(s: State, o: Options, ping: nat, failed: bool, duration: nat)
    requires ping in s.pings
    ensures var t := Answered(s, o, ping, failed, duration);
      var late := !failed && o.pingTimeoutMs.Finite? && duration > o.pingTimeoutMs.n;
      t == s.(pings := s.pings - {ping}, destroyed := s.destroyed || late,
              lastAliveAt := if failed || late then s.lastAliveAt else s.clock,
              signs := if failed || late then s.signs else s.signs + [s.clock], timers := t.timers)
  {
    hide Alive, ClearTimer;
    AliveShape(s.(timers := ClearTimer(s.timers, s.timers.pingTimeoutId), pings := s.pings - {ping}), o);
  }

  lemma FiredShape(s: State, o: Options, timer: nat)
    requires timer in s.timers.live
    ensures var t := Fired(s, o, timer);
      t == match s.timers.live[timer].kind
        case Interval => s.(pings := s.pings[s.nextPing := false], nextPing := s.nextPing + 1, timers := t.timers)
        case PingTimeout => s.(destroyed := true, timers := t.timers)
        case Idle => s.(closed := true, listening := false, timers := t.timers)
  {
    hide CommonPing, Cleanup;
    var dropped := s.(timers := s.timers.(live := s.timers.live - {timer}));
    PingShape(dropped, o, false);
    CleanupShape(dropped.(closed := true));
  }

  /** A sign of life: a response header, bytes that count, a timely answer. */
  predicate Lives(s: State, e: Event, o: Options) {
    || e.Response?
    || (e.BytesRead? && e.sameSession && !s.closed && !s.destroyed && s.streamCount > 0)
    || (e.PingAnswered? && !e.failed && !TooLate(e, o))
  }

  /** The fields after an event. A connection is destroyed by exactly these events: a PING timeout, a late answer
      to any PING, the end of the connection, and an abort; it is closed by an idle timeout only. A PING is
      outstanding from when it is sent until it is answered. */
  predicate FieldsAre(s: State, e: Event, o: Options, now: nat, t: State) {
    && t.clock == now
    && (t.destroyed <==>
          s.destroyed || Fires(s, e, PingTimeout) || TooLate(e, o) || e.ConnClosed? || e.ConnFailed? || e.AbortConn?)
    && (t.closed <==> s.closed || Fires(s, e, Idle))
    && (t.listening <==> s.listening && !Fires(s, e, Idle) && !e.ConnClosed? && !e.ConnFailed? && !e.Exited?)
    && (t.hooks <==> e.Entered? || (s.hooks && !e.Exited?))
    && (t.tooManyPings <==> s.tooManyPings || (e.GoAway? && e.many && s.listening))
    && t.lastAliveAt == (if Lives(s, e, o) then now else s.lastAliveAt)
    && t.streamCount == s.streamCount + (if e.Register? then 1 else if e.StreamClosed? then -1 else 0)
    && t.open == (if e.Register? then s.open + {e.stream}
                  else if e.StreamClosed? then s.open - {e.stream} else s.open)
    && t.pings == (if e.VerifyPing? then s.pings[s.nextPing := true]
                   else if Fires(s, e, Interval) then s.pings[s.nextPing := false]
                   else if e.PingAnswered? then s.pings - {e.ping} else s.pings)
    && t.nextPing == s.nextPing + (if e.VerifyPing? || Fires(s, e, Interval) then 1 else 0)
  }

  /** What every event does to the fields. */
  lemma FieldsAfter(s: State, e: Event, o: Options, now: nat)
    requires Enabled(s, e, now)
    ensures FieldsAre(s, e, o, now, Step(s, e, o, now))
  {
    hide FieldsAre, Step, Enabled;
    if e.Register? || e.Response? || e.StreamClosed? || e.BytesRead? {
      FieldsOfStream(s, e, o, now);
    } else if e.VerifyPing? || e.PingAnswered? {
      FieldsOfPing(s, e, o, now);
    } else if e.TimerFires? {
      FieldsOfTimer(s, e.timer, o, now);
    } else {
      FieldsOfConnection(s, e, o, now);
    }
  }

  lemma FieldsOfStream(s: State, e: Event, o: Options, now: nat)
    requires Enabled(s, e, now) && (e.Register? || e.Response? || e.StreamClosed? || e.BytesRead?)
    ensures FieldsAre(s, e, o, now, Step(s, e, o, now))
  {
    hide Alive, Registered, Unregistered;
    var c := s.(clock := now);
    match e
    case Register(stream) => RegisteredShape(c, o, stream);
    case Response(stream) => AliveShape(c.(awaiting := c.awaiting - {stream}), o);
    case StreamClosed(stream) => UnregisteredShape(c, o, stream);
    case BytesRead(_) => AliveShape(c, o);
  }

  lemma FieldsOfPing(s: State, e: Event, o: Options, now: nat)
    requires Enabled(s, e, now) && (e.VerifyPing? || e.PingAnswered?)
    ensures FieldsAre(s, e, o, now, Step(s, e, o, now))
  {
    hide CommonPing, Answered;
    var c := s.(clock := now);
    match e
    case VerifyPing => PingShape(c, o, true);
    case PingAnswered(ping, failed, duration) => AnsweredShape(c, o, ping, failed, duration);
  }

  lemma FieldsOfTimer(s: State, timer: nat, o: Options, now: nat)
    requires Enabled(s, TimerFires(timer), now)
    ensures FieldsAre(s, TimerFires(timer), o, now, Step(s, TimerFires(timer), o, now))
  {
    hide Fired;
    FiredShape(s.(clock := now), o, timer);
  }

  lemma FieldsOfConnection(s: State, e: Event, o: Options, now: nat)
    requires Enabled(s, e, now)
    requires e.ConnClosed? || e.ConnFailed? || e.GoAway? || e.AbortConn? || e.Entered? || e.Exited?
    ensures FieldsAre(s, e, o, now, Step(s, e, o, now))
  {
    hide Cleanup;
    var c := s.(clock := now);
    CleanupShape(c);
    CleanupShape(c.(destroyed := true));
  }

  /** The three timers, one by one: a PING timeout destroys the connection, an idle timeout closes it and stops
      listening, and the interval sends a PING that restarts it when answered; and they do nothing else. */
  lemma FiringDoes(s: State, timer: nat, o: Options, now: nat)
    requires Enabled(s, TimerFires(timer), now)
    ensures var t, kind := Step(s, TimerFires(timer), o, now), s.timers.live[timer].kind;
      && (t.destroyed <==> s.destroyed || kind == PingTimeout)
      && (t.closed <==> s.closed || kind == Idle)
      && t.pings == (if kind == Interval then s.pings[s.nextPing := false] else s.pings)
      && t.open == s.open && t.lastAliveAt == s.lastAliveAt && t.hooks == s.hooks
      && (t.listening <==> s.listening && kind != Idle)
  {
    hide Fired;
    FiredShape(s.(clock := now), o, timer);
  }

  /** An answer destroys the connection iff it comes later than `pingTimeoutMs`, whatever the PING was for. */
  lemma LateAnswerDestroys(s: State, ping: nat, duration: nat, o: Options, now: nat)
    requires ping in s.pings && now >= s.clock && !s.destroyed
    ensures Step(s, PingAnswered(ping, false, duration), o, now).destroyed
      <==> o.pingTimeoutMs.Finite? && duration > o.pingTimeoutMs.n
    ensures !Step(s, PingAnswered(ping, true, duration), o, now).destroyed
  {
    hide Answered;
    AnsweredShape(s.(clock := now), o, ping, false, duration);
    AnsweredShape(s.(clock := now), o, ping, true, duration);
  }

  // ----- timers

  /** The live timer of a kind. */
  function LiveTimer(ts: Timers, kind: Kind): Option<Timer> {
    var id := Holder(ts, kind);
    if id.Some? && id.value in ts.live && ts.live[id.value].kind == kind then Some(ts.live[id.value]) else None
  }

  /** A timer just armed, if `setTimeout` supports its delay. */
  function Armed(kind: Kind, ms: Ms, now: nat): Option<Timer> {
    if ms.Finite? && ms.n <= 0x7fff_ffff then Some(Timer(kind, now, ms.n)) else None
  }

  /** It is the only one of its kind. */
  lemma LiveTimerIsOnly(ts: Timers, kind: Kind, now: nat)
    requires IdsHold(ts, now)
    ensures LiveTimer(ts, kind).Some? <==> exists id | id in ts.live :: ts.live[id].kind == kind
    ensures forall id | id in ts.live && ts.live[id].kind == kind :: LiveTimer(ts, kind) == Some(ts.live[id])
  {
  }

  lemma SetLive(ts: Timers, kind: Kind, ms: Ms, now: nat)
    requires NamesHold(ts)
    ensures var t := SetTimer(ts, kind, ms, now);
      && NamesHold(t) && LiveTimer(t, kind) == Armed(kind, ms, now)
      && forall k: Kind | k != kind :: LiveTimer(t, k) == LiveTimer(ts, k)
  {
    var t := SetTimer(ts, kind, ms, now);
    forall k: Kind ensures k != kind ==> Holder(t, k) == Holder(ts, k) {
    }
  }

  lemma ClearLive(ts: Timers, kind: Kind)
    requires NamesHold(ts)
    ensures var t := ClearTimer(ts, Holder(ts, kind));
      && NamesHold(t) && LiveTimer(t, kind) == None
      && forall k: Kind | k != kind :: LiveTimer(t, k) == LiveTimer(ts, k)
  {
    var t := ClearTimer(ts, Holder(ts, kind));
    forall k: Kind ensures Holder(t, k) == Holder(ts, k) {
    }
  }

  lemma StopLive(ts: Timers)
    requires NamesHold(ts)
    ensures var t := StopPingInterval(ts);
      && NamesHold(t) && LiveTimer(t, Interval) == None && LiveTimer(t, PingTimeout) == None
      && LiveTimer(t, Idle) == LiveTimer(ts, Idle)
  {
    hide ClearTimer, NamesHold, LiveTimer;
    ClearLive(ts, Interval);
    SameHolders(ts, ts.pingIntervalId);
    assert Holder(ClearTimer(ts, ts.pingIntervalId), PingTimeout) == Holder(ts, PingTimeout);
    ClearLive(ClearTimer(ts, ts.pingIntervalId), PingTimeout);
  }

  lemma ResetLive(ts: Timers, wanted: bool, ms: Ms, now: nat)
    requires NamesHold(ts)
    ensures var t := ResetPingInterval(ts, wanted, ms, now);
      && NamesHold(t) && LiveTimer(t, Interval) == (if wanted then Armed(Interval, ms, now) else None)
      && LiveTimer(t, PingTimeout) == None && LiveTimer(t, Idle) == LiveTimer(ts, Idle)
  {
    hide StopPingInterval, SetTimer, NamesHold, LiveTimer;
    StopLive(ts);
    if wanted {
      SetLive(StopPingInterval(ts), Interval, ms, now);
    }
  }

  /** A new ready state has its idle timer only, and counts as just seen alive. */
  lemma InitialTimers(o: Options, now: nat)
    ensures var s := Initial(o, now);
      && LiveTimer(s.timers, Idle) == Armed(Idle, o.idleConnectionTimeoutMs, now)
      && LiveTimer(s.timers, Interval) == None && LiveTimer(s.timers, PingTimeout) == None
      && s.lastAliveAt == now && s.streamCount == 0 && s.open == {} && s.pings == map[]
      && s.listening && !s.hooks && !s.closed && !s.destroyed && !s.tooManyPings
  {
    var none := Timers(None, None, None, map[], 0);
    assert NamesHold(none);
    SetLive(none, Idle, o.idleConnectionTimeoutMs, now);
  }

  /** The events that restart the interval. */
  predicate Restarts(s: State, e: Event, o: Options) {
    match e
    case Register(_) => s.streamCount == 0
    case StreamClosed(_) => s.streamCount == 1
    case Response(_) => true
    case BytesRead(sameSession) => sameSession && !s.closed && !s.destroyed && s.streamCount > 0
    case PingAnswered(ping, failed, _) => !failed && !TooLate(e, o) && ping in s.pings && !s.pings[ping]
    case _ => false
  }

  /** The events that send a PING. */
  predicate Sends(s: State, e: Event) {
    e.VerifyPing? || Fires(s, e, Interval)
  }

  /** The events that stop all timers. */
  predicate StopsAll(s: State, e: Event) {
    e.Exited? || Fires(s, e, Idle) || ((e.ConnClosed? || e.ConnFailed?) && s.listening)
  }

  /** Is keep-alive wanted once the event has happened? */
  predicate WantedAfter(s: State, e: Event, o: Options) {
    s.streamCount + (if e.Register? then 1 else if e.StreamClosed? then -1 else 0) > 0 || o.pingIdleConnection
  }

  /** The three timers after an event. */
  predicate TimersAre(s: State, e: Event, o: Options, now: nat, t: Timers) {
    && NamesHold(t)
    && LiveTimer(t, Interval) ==
      (if Restarts(s, e, o) then (if WantedAfter(s, e, o) then Armed(Interval, o.pingIntervalMs, now) else None)
       else if StopsAll(s, e) || Fires(s, e, Interval) then None
       else LiveTimer(s.timers, Interval))
    && LiveTimer(t, PingTimeout) ==
      (if Sends(s, e) then Armed(PingTimeout, o.pingTimeoutMs, now)
       else if Restarts(s, e, o) || e.PingAnswered? || StopsAll(s, e) || Fires(s, e, PingTimeout) then None
       else LiveTimer(s.timers, PingTimeout))
    && LiveTimer(t, Idle) ==
      (if e.StreamClosed? && s.streamCount == 1 then Armed(Idle, o.idleConnectionTimeoutMs, now)
       else if (e.Register? && s.streamCount == 0) || StopsAll(s, e) then None
       else LiveTimer(s.timers, Idle))
  }

  lemma AliveTimers(s: State, o: Options)
    requires NamesHold(s.timers)
    ensures var t := Alive(s, o).timers;
      && NamesHold(t) && LiveTimer(t, PingTimeout) == None && LiveTimer(t, Idle) == LiveTimer(s.timers, Idle)
      && LiveTimer(t, Interval) ==
        if s.streamCount > 0 || o.pingIdleConnection then Armed(Interval, o.pingIntervalMs, s.clock) else None
  {
    hide ResetPingInterval, NamesHold, LiveTimer, Armed;
    ResetLive(s.timers, Wanted(s.streamCount, o), o.pingIntervalMs, s.clock);
  }

  lemma RegisterTimers(s: State, o: Options, stream: nat)
    requires NamesHold(s.timers)
    ensures TimersAre(s, Register(stream), o, s.clock, Registered(s, o, stream).timers)
  {
    hide ResetPingInterval, ClearTimer, NamesHold, LiveTimer, Armed;
    if s.streamCount == 0 {
      ResetLive(s.timers, true, o.pingIntervalMs, s.clock);
      ClearLive(ResetPingInterval(s.timers, true, o.pingIntervalMs, s.clock), Idle);
    }
  }

  lemma CloseTimers(s: State, o: Options, stream: nat)
    requires NamesHold(s.timers)
    ensures TimersAre(s, StreamClosed(stream), o, s.clock, Unregistered(s, o, stream).timers)
  {
    hide ResetPingInterval, SetTimer, NamesHold, LiveTimer, Armed;
    if s.streamCount == 1 {
      var reset := ResetPingInterval(s.timers, Wanted(0, o), o.pingIntervalMs, s.clock);
      ResetLive(s.timers, Wanted(0, o), o.pingIntervalMs, s.clock);
      SetLive(reset, Idle, o.idleConnectionTimeoutMs, s.clock);
    }
  }

  lemma ResponseTimers(s: State, o: Options, stream: nat)
    requires NamesHold(s.timers)
    ensures TimersAre(s, Response(stream), o, s.clock, Alive(s.(awaiting := s.awaiting - {stream}), o).timers)
  {
    hide Alive, NamesHold, LiveTimer, Armed;
    AliveTimers(s.(awaiting := s.awaiting - {stream}), o);
  }

  lemma BytesTimers(s: State, o: Options, sameSession: bool)
    requires NamesHold(s.timers)
    ensures TimersAre(s, BytesRead(sameSession), o, s.clock,
                      (if !sameSession || s.closed || s.destroyed || s.streamCount <= 0 then s else Alive(s, o)).timers)
  {
    hide Alive, NamesHold, LiveTimer, Armed;
    AliveTimers(s, o);
  }

  lemma SendTimers(ts: Timers, o: Options, now: nat)
    requires NamesHold(ts)
    ensures var t := SetTimer(ClearTimer(ts, ts.pingTimeoutId), PingTimeout, o.pingTimeoutMs, now);
      && NamesHold(t) && LiveTimer(t, PingTimeout) == Armed(PingTimeout, o.pingTimeoutMs, now)
      && LiveTimer(t, Interval) == LiveTimer(ts, Interval) && LiveTimer(t, Idle) == LiveTimer(ts, Idle)
  {
    hide SetTimer, ClearTimer, NamesHold, LiveTimer, Armed;
    ClearLive(ts, PingTimeout);
    SetLive(ClearTimer(ts, ts.pingTimeoutId), PingTimeout, o.pingTimeoutMs, now);
  }

  lemma VerifyTimers(s: State, o: Options)
    requires NamesHold(s.timers)
    ensures TimersAre(s, VerifyPing, o, s.clock, CommonPing(s, o, true).timers)
  {
    hide SetTimer, ClearTimer, NamesHold, LiveTimer, Armed;
    SendTimers(s.timers, o, s.clock);
  }

  lemma AnswerTimers(s: State, o: Options, ping: nat, failed: bool, duration: nat)
    requires NamesHold(s.timers) && ping in s.pings
    ensures var e := PingAnswered(ping, failed, duration);
      TimersAre(s, e, o, s.clock, Answered(s, o, ping, failed, duration).timers)
  {
    hide Alive, ClearTimer, NamesHold, LiveTimer, Armed;
    ClearLive(s.timers, PingTimeout);
    AliveTimers(s.(timers := ClearTimer(s.timers, s.timers.pingTimeoutId), pings := s.pings - {ping}), o);
  }

  lemma CleanupTimers(ts: Timers)
    requires NamesHold(ts)
    ensures var t := StopIdleTimeout(StopPingInterval(ts));
      NamesHold(t) && forall k: Kind :: LiveTimer(t, k) == None
  {
    hide ClearTimer, NamesHold, LiveTimer, StopPingInterval;
    StopLive(ts);
    ClearLive(StopPingInterval(ts), Idle);
    var t := StopIdleTimeout(StopPingInterval(ts));
    forall k: Kind ensures LiveTimer(t, k) == None {
      match k case Interval => case PingTimeout => case Idle =>
    }
  }

  /** A timer that fires is gone, and no other one is. */
  lemma DropLive(ts: Timers, timer: nat, now: nat)
    requires NamesHold(ts) && IdsHold(ts, now) && timer in ts.live
    ensures var t := ts.(live := ts.live - {timer});
      && NamesHold(t) && LiveTimer(t, ts.live[timer].kind) == None
      && forall k: Kind | k != ts.live[timer].kind :: LiveTimer(t, k) == LiveTimer(ts, k)
  {
    var t := ts.(live := ts.live - {timer});
    forall k: Kind ensures Holder(t, k) == Holder(ts, k) {
    }
  }

  lemma FiredTimers(s: State, o: Options, timer: nat)
    requires timer in s.timers.live
    ensures var t, dropped := Fired(s, o, timer).timers, s.timers.(live := s.timers.live - {timer});
      match s.timers.live[timer].kind
      case Interval =>
        t == SetTimer(ClearTimer(dropped, dropped.pingTimeoutId), PingTimeout, o.pingTimeoutMs, s.clock)
      case PingTimeout => t == dropped
      case Idle => t == StopIdleTimeout(StopPingInterval(dropped))
  {
    hide SetTimer, ClearTimer, StopPingInterval, StopIdleTimeout;
  }

  lemma FireTimers(s: State, o: Options, timer: nat)
    requires NamesHold(s.timers) && IdsHold(s.timers, s.clock) && timer in s.timers.live
    ensures TimersAre(s, TimerFires(timer), o, s.clock, Fired(s, o, timer).timers)
  {
    hide SetTimer, ClearTimer, NamesHold, LiveTimer, Armed, StopPingInterval, StopIdleTimeout, IdsHold, Fired;
    var dropped := s.timers.(live := s.timers.live - {timer});
    FiredTimers(s, o, timer);
    DropLive(s.timers, timer, s.clock);
    match s.timers.live[timer].kind
    case Interval => SendTimers(dropped, o, s.clock);
    case PingTimeout =>
    case Idle => CleanupTimers(dropped);
  }

  lemma EndTimers(s: State, e: Event, o: Options)
    requires NamesHold(s.timers) && (e.ConnClosed? || e.ConnFailed? || e.Exited?)
    ensures TimersAre(s, e, o, s.clock, if e.Exited? then Cleanup(s).timers else Ended(s).timers)
  {
    hide NamesHold, LiveTimer, Armed, StopPingInterval, StopIdleTimeout;
    CleanupTimers(s.timers);
  }

  /** The three timers after every event. */
  lemma TimersAfter(s: State, e: Event, o: Options, now: nat)
    requires NamesHold(s.timers) && Invariant(s, o) && Enabled(s, e, now)
    ensures TimersAre(s, e, o, now, Step(s, e, o, now).timers)
  {
    hide Step, Invariant, TimersAre, NamesHold;
    InvariantForgetsClock(s, o, now);
    StepForgetsClock(s, e, o, now);
    EventTimers(s.(clock := now), e, o);
    TimersForgetClock(s, e, o, now, Step(s, e, o, now).timers);
  }

  lemma TimersForgetClock(s: State, e: Event, o: Options, now: nat, t: Timers)
    requires TimersAre(s.(clock := now), e, o, now, t)
    ensures TimersAre(s, e, o, now, t)
  {
    hide NamesHold, LiveTimer, Armed;
  }

  lemma EventTimers(s: State, e: Event, o: Options)
    requires NamesHold(s.timers) && Invariant(s, o) && Enabled(s, e, s.clock)
    ensures TimersAre(s, e, o, s.clock, Step(s, e, o, s.clock).timers)
  {
    hide Alive, CommonPing, Cleanup, Registered, Unregistered, Answered, Fired, Ended, NamesHold, LiveTimer, Armed,
      IdsHold, Reasons;
    assert s.(clock := s.clock) == s;
    match e
    case Register(stream) => RegisterTimers(s, o, stream);
    case Response(stream) => ResponseTimers(s, o, stream);
    case StreamClosed(stream) => CloseTimers(s, o, stream);
    case BytesRead(sameSession) => BytesTimers(s, o, sameSession);
    case VerifyPing => VerifyTimers(s, o);
    case PingAnswered(ping, failed, duration) => AnswerTimers(s, o, ping, failed, duration);
    case TimerFires(timer) => FireTimers(s, o, timer);
    case ConnClosed => EndTimers(s, e, o);
    case ConnFailed => EndTimers(s, e, o);
    case GoAway(_) =>
    case AbortConn =>
    case Entered =>
    case Exited => EndTimers(s, e, o);
  }

  // ----- a PING nobody answers

  /** The events that clear or replace the PING timeout. */
  predicate Disturbs(s: State, e: Event, o: Options) {
    Sends(s, e) || Restarts(s, e, o) || e.PingAnswered? || StopsAll(s, e) || Fires(s, e, PingTimeout)
  }

  /** Between sending a PING and event `j` of a run, its timeout stays armed if nothing disturbs it. */
  lemma {:induction false} TimeoutStaysArmed(o: Options, start: nat, events: seq<Stamped>, k: nat, j: nat)
    requires Possible(Initial(o, start), events, o) && k < j <= |events|
    requires Sends(After(Initial(o, start), events, o, k), events[k].event)
    requires forall i | k < i < j ::
      !Disturbs(After(Initial(o, start), events, o, i), events[i].event, InForce(o, events[i]))
    ensures LiveTimer(After(Initial(o, start), events, o, j).timers, PingTimeout) ==
      Armed(PingTimeout, o.pingTimeoutMs, events[k].now)
    decreases j
  {
    hide Initial, After, Possible, Step, Invariant, NamesHold, Enabled, LiveTimer, Armed, Sends, Restarts, StopsAll;
    var s := After(Initial(o, start), events, o, j - 1);
    AfterNames(o, start, events, j - 1);
    AfterOneMore(Initial(o, start), events, o, j - 1);
    InvariantForgetsInterval(s, o, events[j - 1].pingIntervalMs);
    TimersAfter(s, events[j - 1].event, InForce(o, events[j - 1]), events[j - 1].now);
    if k < j - 1 {
      TimeoutStaysArmed(o, start, events, k, j - 1);
    }
  }

  /** A dead connection is destroyed: in every run, once a PING has been sent and nothing has disturbed its
      timeout, the timeout can fire as soon as `pingTimeoutMs` have passed, and when it fires the connection is
      destroyed. */
  lemma UnansweredPingDestroys(o: Options, start: nat, events: seq<Stamped>, k: nat, j: nat, now: nat)
    requires Possible(Initial(o, start), events, o) && k < j <= |events| && Supported(o.pingTimeoutMs)
    requires Sends(After(Initial(o, start), events, o, k), events[k].event)
    requires forall i | k < i < j ::
      !Disturbs(After(Initial(o, start), events, o, i), events[i].event, InForce(o, events[i]))
    requires now >= After(Initial(o, start), events, o, j).clock && now >= events[k].now + o.pingTimeoutMs.n
    ensures var s := After(Initial(o, start), events, o, j);
      exists timer | timer in s.timers.live ::
        s.timers.live[timer] == Timer(PingTimeout, events[k].now, o.pingTimeoutMs.n)
        && Enabled(s, TimerFires(timer), now) && Step(s, TimerFires(timer), o, now).destroyed
  {
    hide Initial, After, Possible, Step, Sends, Disturbs;
    TimeoutStaysArmed(o, start, events, k, j);
    var s := After(Initial(o, start), events, o, j);
    var timer := s.timers.pingTimeoutId.value;
    assert timer in s.timers.live && s.timers.live[timer] == Timer(PingTimeout, events[k].now, o.pingTimeoutMs.n);
    FiringDoes(s, timer, o, now);
  }
}
