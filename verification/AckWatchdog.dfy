/**
 The receiver's ACK watchdog and the ACK throttle of the aggregator on the other
 side. Handlers are atomic. Times are real and positive; 0 means unset, as in the
 firmware.
 */
module AckWatchdog {
  import opened Wrappers

  /**
   `timeout` and `grace` are the receiver's ACK timeout and CSI grace; `interval` is the
   aggregator's ACK interval. `gap` and `delay` bound the environment: how far apart the
   aggregator accepts packets, and how long an ACK takes.
   */
  datatype Params = Params(timeout: real, grace: real, interval: real, gap: real, delay: real)

  predicate Sensible(p: Params) {
    p.timeout >= 0.0 && p.grace >= 0.0 && p.interval >= 0.0 && p.gap > 0.0 && p.delay >= 0.0
  }

  /** The volatile globals the watchdog reads. */
  datatype Watch = Watch(connected: bool, lastCsi: real, firstUnacked: real, lastAck: real, armed: bool)

  // ---------------------------------------------------------- what the handlers do

  function Cleared(w: Watch): Watch {
    w.(armed := false, lastAck := 0.0, firstUnacked := 0.0)
  }

  function CsiSeen(w: Watch, now: real): Watch {
    w.(lastCsi := now, firstUnacked := if w.firstUnacked == 0.0 then now else w.firstUnacked)
  }

  function AckSeen(w: Watch, now: real): Watch {
    w.(lastAck := now, armed := true, firstUnacked := 0.0)
  }

  predicate Idle(p: Params, w: Watch, now: real) {
    now - w.lastCsi > p.grace
  }

  /** The poll looks at the ACK times. */
  predicate Looks(p: Params, w: Watch, now: real) {
    w.connected && w.lastCsi != 0.0 && !Idle(p, w, now)
  }

  /** The watchdog is counting: from the last ACK, or before the first one from the first CSI. */
  predicate Engaged(w: Watch) {
    w.armed || w.firstUnacked != 0.0
  }

  function Base(w: Watch): real {
    if w.armed then w.lastAck else w.firstUnacked
  }

  /** The poll resets the transport. */
  predicate Fires(p: Params, w: Watch, now: real) {
    Looks(p, w, now) && if w.armed then w.lastAck == 0.0 || now - w.lastAck > p.timeout
                        else w.firstUnacked != 0.0 && now - w.firstUnacked > p.timeout
  }

  function Polled(p: Params, w: Watch, now: real): Watch {
    if w.connected && w.lastCsi != 0.0 && (Idle(p, w, now) || Fires(p, w, now)) then Cleared(w) else w
  }

  predicate Throttled(p: Params, sent: map<nat, real>, from: nat, now: real) {
    from in sent && now - sent[from] < p.interval
  }

  // ----------------------------------------------------------------- the handlers

  class Receiver {
    const p: Params
    var connected: bool
    var lastCsi: real
    var firstUnacked: real
    var lastAck: real
    var armed: bool

    /** The ephemeral port of the socket. */
    var port: nat

    ghost function View(): Watch
      reads this
    {
      Watch(connected, lastCsi, firstUnacked, lastAck, armed)
    }

    constructor (p: Params)
      ensures View() == Watch(false, 0.0, 0.0, 0.0, false) && this.p == p && port == 0
    {
      this.p := p;
      connected, lastCsi, firstUnacked, lastAck, armed, port := false, 0.0, 0.0, 0.0, false, 0;
    }

    method ClearAckWatchdogState()
      modifies `armed, `lastAck, `firstUnacked
      ensures View() == Cleared(old(View()))
    {
      armed := false;
      lastAck := 0.0;
      firstUnacked := 0.0;
    }

    method OnConnected()
      modifies `connected
      ensures View() == old(View()).(connected := true)
    {
      connected := true;
    }

    method OnDisconnected()
      modifies `connected, `lastCsi, `armed, `lastAck, `firstUnacked
      ensures View() == Cleared(old(View())).(connected := false, lastCsi := 0.0)
    {
      connected := false;
      ClearAckWatchdogState();
      lastCsi := 0.0;
    }

    /** CSI from the transmitter; other CSI does not touch the watchdog. */
    method OnCsi(now: real)
      modifies `lastCsi, `firstUnacked
      ensures View() == CsiSeen(old(View()), now)
    {
      lastCsi := now;
      if firstUnacked == 0.0 {
        firstUnacked := now;
      }
    }

    method OnAck(now: real)
      modifies `armed, `lastAck, `firstUnacked
      ensures View() == AckSeen(old(View()), now)
    {
      lastAck := now;
      armed := true;
      firstUnacked := 0.0;
    }

    /** The new socket is bound to a new port. */
    method ResetUdpTransport()
      modifies `armed, `lastAck, `firstUnacked, `port
      ensures View() == Cleared(old(View())) && port == old(port) + 1
    {
      ClearAckWatchdogState();
      port := port + 1;
    }

    method Poll(now: real) returns (fired: bool)
      modifies `armed, `lastAck, `firstUnacked, `port
      ensures fired == Fires(p, old(View()), now) && View() == Polled(p, old(View()), now)
      ensures port == if fired then old(port) + 1 else old(port)
    {
      fired := false;
      if !connected || lastCsi == 0.0 {
        return;
      }
      if now - lastCsi > p.grace {
        ClearAckWatchdogState();
        return;
      }
      if !armed {
        if firstUnacked != 0.0 && now - firstUnacked > p.timeout {
          fired := true;
          ResetUdpTransport();
        }
        return;
      }
      if lastAck != 0.0 && now - lastAck <= p.timeout {
        return;
      }
      fired := true;
      ResetUdpTransport();
    }
  }

  /** The aggregator's throttle, per sender address. */
  class Aggregator {
    const p: Params
    var lastAckSent: map<nat, real>

    constructor (p: Params)
      ensures lastAckSent == map[] && this.p == p
    {
      this.p := p;
      lastAckSent := map[];
    }

    method MaybeSendAck(from: nat, now: real) returns (sent: bool)
      modifies `lastAckSent
      ensures sent == !Throttled(p, old(lastAckSent), from, now)
      ensures lastAckSent == if sent then old(lastAckSent)[from := now] else old(lastAckSent)
    {
      if from in lastAckSent && now - lastAckSent[from] < p.interval {
        return false;
      }
      lastAckSent := lastAckSent[from := now];
      return true;
    }
  }

  // --------------------------------------------------------------- the two together

  datatype Event =
    | Connect(t: real)
    | Disconnect(t: real)
    | Csi(t: real)
    | Accept(t: real, from: nat)
    | Ack(t: real, sentAt: real)
    | SendError(t: real)
    | Poll(t: real)

  /**
   `sent` is the aggregator's table, `port` the receiver's current address. `quiet` is the
   last time the watchdog was engaged or a packet from the current address was accepted since.
   `owed` holds the ACKs sent to the engaged watchdog that have not arrived. `fired` is the
   time of the last reset by the watchdog.
   */
  datatype System = System(now: real, watch: Watch, port: nat, sent: map<nat, real>,
                           quiet: real, owed: set<real>, fired: Option<real>)

  datatype Trace = Boot | Then(before: Trace, e: Event)

  const OFF := Watch(false, 0.0, 0.0, 0.0, false)

  function Settle(s: System, t: real, w: Watch): System {
    s.(now := t, watch := w,
       quiet := if Engaged(w) && !Engaged(s.watch) then t else s.quiet,
       owed := if Engaged(w) then s.owed else {})
  }

  function Renew(s: System, t: real): System {
    Settle(s, t, Cleared(s.watch)).(port := s.port + 1)
  }

  function After(p: Params, s: System, e: Event): System {
    match e
    case Connect(t) => Settle(s, t, s.watch.(connected := true))
    case Disconnect(t) => Settle(s, t, Cleared(s.watch).(connected := false, lastCsi := 0.0))
    case Csi(t) => Settle(s, t, CsiSeen(s.watch, t))
    case Accept(t, from) =>
      var acked := !Throttled(p, s.sent, from, t);
      s.(now := t, sent := if acked then s.sent[from := t] else s.sent,
         quiet := if from == s.port then t else s.quiet,
         owed := if acked && from == s.port && Engaged(s.watch) then s.owed + {t} else s.owed)
    case Ack(t, sentAt) =>
      var s' := Settle(s, t, AckSeen(s.watch, t));
      s'.(owed := s.owed - {sentAt})
    case SendError(t) => Renew(s, t)
    case Poll(t) =>
      if Fires(p, s.watch, t) then Renew(s, t).(fired := Some(t)) else Settle(s, t, Polled(p, s.watch, t))
  }

  /** Time goes on, and nothing comes from a port that was not opened yet. */
  predicate Possible(s: System, e: Event) {
    e.t >= s.now && e.t > 0.0 && (e.Accept? ==> e.from <= s.port)
  }

  /**
   What the environment owes while the watchdog is engaged: packets accepted at most
   `gap` apart, ACKs within `delay`. It owes nothing else: ACKs may be lost or late
   when the watchdog is not engaged, and stray ones may come at any time.
   */
  predicate Kept(p: Params, s: System, e: Event) {
    && (Engaged(s.watch) && e.Accept? && e.from == s.port ==> e.t <= s.quiet + p.gap)
    && (Engaged(s.watch) && e.Poll? && Looks(p, s.watch, e.t) ==>
          e.t <= s.quiet + p.gap && forall a :: a in s.owed ==> e.t <= a + p.delay)
  }

  function StateAfter(p: Params, trace: Trace): System {
    if trace.Boot? then System(0.0, OFF, 0, map[], 0.0, {}, None)
    else After(p, StateAfter(p, trace.before), trace.e)
  }

  predicate Any(p: Params, trace: Trace) {
    trace.Then? ==> Any(p, trace.before) && Possible(StateAfter(p, trace.before), trace.e)
  }

  predicate Admissible(p: Params, trace: Trace) {
    trace.Then? ==>
      && Admissible(p, trace.before)
      && Possible(StateAfter(p, trace.before), trace.e) && Kept(p, StateAfter(p, trace.before), trace.e)
  }

  predicate Resets(p: Params, trace: Trace) {
    trace.Then? && trace.e.Poll? && Fires(p, StateAfter(p, trace.before).watch, trace.e.t)
  }

  // --------------------------------------------------------- what events say of the state

  predicate Online(trace: Trace) {
    trace.Then? && (trace.e.Connect? || (!trace.e.Disconnect? && Online(trace.before)))
  }

  /** The last CSI since the last disconnect. */
  function LastCsi(trace: Trace): Option<real> {
    if trace.Boot? || trace.e.Disconnect? then None
    else if trace.e.Csi? then Some(trace.e.t)
    else LastCsi(trace.before)
  }

  /**
   The time the watchdog counts from: the last ACK, or without one the first CSI, since the last
   disconnect, send error, or poll that found the CSI older than the grace or the count older
   than the timeout.
   */
  function CountsFrom(p: Params, trace: Trace): Option<real> {
    if trace.Boot? then None
    else
      match trace.e
      case Csi(t) => if CountsFrom(p, trace.before).None? then Some(t) else CountsFrom(p, trace.before)
      case Ack(t, _) => Some(t)
      case Disconnect(_) => None
      case SendError(_) => None
      case Poll(t) =>
        if Online(trace.before) && LastCsi(trace.before).Some?
           && (t - LastCsi(trace.before).value > p.grace || TooOld(p, CountsFrom(p, trace.before), t)) then None
        else CountsFrom(p, trace.before)
      case _ => CountsFrom(p, trace.before)
  }

  predicate TooOld(p: Params, from: Option<real>, t: real) {
    from.Some? && t - from.value > p.timeout
  }

  /** The globals say what the events say. */
  predicate Mirrors(p: Params, trace: Trace, w: Watch) {
    && w.connected == Online(trace)
    && (match LastCsi(trace) case None => w.lastCsi == 0.0 case Some(c) => c > 0.0 && w.lastCsi == c)
    && (w.armed ==> w.lastAck > 0.0) && w.firstUnacked >= 0.0
    && (match CountsFrom(p, trace) case None => !Engaged(w) case Some(b) => Engaged(w) && Base(w) == b)
  }

  lemma {:induction false} StateMirrorsEvents(p: Params, trace: Trace)
    requires Any(p, trace)
    ensures Mirrors(p, trace, StateAfter(p, trace).watch)
  {
    if trace.Then? {
      StateMirrorsEvents(p, trace.before);
    }
  }

  /** After any run a poll resets exactly when connected, with CSI within the grace, and the count older than the timeout. */
  lemma ResetsExactlyWhen(p: Params, trace: Trace)
    requires Any(p, trace) && trace.Then? && trace.e.Poll?
    ensures Resets(p, trace) <==>
      && Online(trace.before)
      && LastCsi(trace.before).Some? && trace.e.t - LastCsi(trace.before).value <= p.grace
      && CountsFrom(p, trace.before).Some? && trace.e.t - CountsFrom(p, trace.before).value > p.timeout
  {
    StateMirrorsEvents(p, trace.before);
  }

  /** A poll later than the grace after the last CSI never resets, and while connected it clears the count. */
  lemma IdlePollClears(p: Params, trace: Trace)
    requires Any(p, trace) && trace.Then? && trace.e.Poll?
    requires LastCsi(trace.before).Some? && trace.e.t - LastCsi(trace.before).value > p.grace
    ensures !Resets(p, trace)
    ensures Online(trace.before) ==> !Engaged(StateAfter(p, trace).watch)
  {
    StateMirrorsEvents(p, trace.before);
  }

  // ------------------------------------------------------------- between two resets

  /** Nothing the watchdog counts from is older than the last reset. */
  predicate Younger(s: System) {
    && (s.watch.armed ==> 0.0 < s.watch.lastAck <= s.now)
    && 0.0 <= s.watch.firstUnacked <= s.now
    && (s.fired.Some? ==>
          && s.fired.value <= s.now
          && (Engaged(s.watch) ==> Base(s.watch) >= s.fired.value)
          && (s.watch.firstUnacked != 0.0 ==> s.watch.firstUnacked >= s.fired.value))
  }

  lemma {:induction false} AlwaysYounger(p: Params, trace: Trace)
    requires Any(p, trace)
    ensures Younger(StateAfter(p, trace)) && StateAfter(p, trace).now >= 0.0
  {
    if trace.Then? {
      AlwaysYounger(p, trace.before);
    }
  }

  /** `trace` goes on from `early`. */
  predicate Extends(trace: Trace, early: Trace) {
    trace == early || (trace.Then? && Extends(trace.before, early))
  }

  lemma {:induction false} FiredSince(p: Params, early: Trace, trace: Trace)
    requires Any(p, trace) && Extends(trace, early) && Resets(p, early)
    ensures StateAfter(p, trace).fired.Some? && StateAfter(p, trace).fired.value >= early.e.t
  {
    if trace != early {
      FiredSince(p, early, trace.before);
      AlwaysYounger(p, trace.before);
    }
  }

  /** In every interleaving, more than the timeout passes between any two resets by the watchdog. */
  lemma ResetsAreApart(p: Params, early: Trace, late: Trace)
    requires Any(p, late) && Resets(p, early) && Resets(p, late) && Extends(late.before, early)
    ensures late.e.t - early.e.t > p.timeout
  {
    AlwaysYounger(p, late.before);
    FiredSince(p, early, late.before);
  }

  // ------------------------------------------------------------------ no false resets

  predicate Enough(p: Params) {
    p.interval + p.gap + p.delay <= p.timeout
  }

  /** Clocks and ports: nothing lies ahead. */
  predicate Timely(s: System) {
    && s.now >= 0.0
    && (s.watch.armed ==> 0.0 < s.watch.lastAck <= s.now)
    && 0.0 <= s.watch.firstUnacked <= s.now
    && s.quiet <= s.now
    && forall a :: a in s.sent ==> a <= s.port && s.sent[a] <= s.now
  }

  /** An ACK is on its way that arrives before the timeout. */
  ghost predicate Relieved(p: Params, s: System) {
    exists a :: a in s.owed && a + p.delay <= Base(s.watch) + p.timeout
  }

  /** The aggregator is free to acknowledge early enough. */
  predicate Waiting(p: Params, s: System) {
    && s.quiet <= Base(s.watch) + p.interval
    && (s.port in s.sent ==> s.sent[s.port] <= Base(s.watch))
  }

  ghost predicate Safe(p: Params, s: System) {
    Timely(s) && (Engaged(s.watch) ==> Relieved(p, s) || Waiting(p, s))
  }

  lemma AcceptKeepsSafe(p: Params, s: System, e: Event)
    requires Sensible(p) && Enough(p) && Safe(p, s) && e.Accept? && Possible(s, e) && Kept(p, s, e)
    ensures Safe(p, After(p, s, e))
  {
    var s' := After(p, s, e);
    if Engaged(s.watch) {
      if a :| a in s.owed && a + p.delay <= Base(s.watch) + p.timeout {
        assert a in s'.owed;
      } else if e.from == s.port && !Throttled(p, s.sent, e.from, e.t) {
        assert e.t in s'.owed;
      }
    }
  }

  lemma AckKeepsSafe(p: Params, s: System, e: Event)
    requires Sensible(p) && Safe(p, s) && e.Ack? && Possible(s, e)
    ensures Safe(p, After(p, s, e))
  {
    assert Waiting(p, After(p, s, e));
  }

  lemma OtherKeepsSafe(p: Params, s: System, e: Event)
    requires Sensible(p) && Safe(p, s) && (e.Connect? || e.Disconnect? || e.Csi? || e.SendError?) && Possible(s, e)
    ensures Safe(p, After(p, s, e))
  {
    var s' := After(p, s, e);
    if Engaged(s.watch) && Engaged(s'.watch) {
      if a :| a in s.owed && a + p.delay <= Base(s.watch) + p.timeout {
        assert a in s'.owed;
      }
    }
  }

  lemma PollIsSafe(p: Params, s: System, e: Event)
    requires Sensible(p) && Enough(p) && Safe(p, s) && e.Poll? && Possible(s, e) && Kept(p, s, e)
    ensures Safe(p, After(p, s, e)) && !Fires(p, s.watch, e.t)
  {
    if Engaged(s.watch) && Looks(p, s.watch, e.t) {
      if a :| a in s.owed && a + p.delay <= Base(s.watch) + p.timeout {
        assert e.t <= a + p.delay;
      }
      assert e.t <= Base(s.watch) + p.timeout;
    }
    var s' := After(p, s, e);
    if a :| a in s.owed && a + p.delay <= Base(s.watch) + p.timeout {
      assert Engaged(s'.watch) ==> a in s'.owed;
    }
  }

  lemma {:induction false} AlwaysSafe(p: Params, trace: Trace)
    requires Sensible(p) && Enough(p) && Admissible(p, trace)
    ensures Safe(p, StateAfter(p, trace)) && !Resets(p, trace)
  {
    if trace.Then? {
      AlwaysSafe(p, trace.before);
      var s, e := StateAfter(p, trace.before), trace.e;
      match e
      case Accept(_, _) => AcceptKeepsSafe(p, s, e);
      case Ack(_, _) => AckKeepsSafe(p, s, e);
      case Poll(_) => PollIsSafe(p, s, e);
      case _ => OtherKeepsSafe(p, s, e);
    }
  }

  // -------------------------------------------- a tighter timeout fires falsely

  function Steps(n: nat, gap: real): (length: real)
    ensures gap >= 0.0 ==> length >= 0.0
  {
    if n == 0 then 0.0 else Steps(n - 1, gap) + gap
  }

  lemma {:induction false} StepsIsProduct(n: nat, gap: real)
    ensures Steps(n, gap) == n as real * gap
  {
    if n > 0 {
      StepsIsProduct(n - 1, gap);
    }
  }

  lemma EnoughSteps(length: real, gap: real) returns (n: nat)
    requires gap > 0.0 && length >= 0.0
    ensures Steps(n, gap) >= length
  {
    var quotient := length / gap;
    n := quotient.Floor + 1;
    StepsIsProduct(n, gap);
    Monotone(quotient, n as real, gap);
    Quotient(length, gap);
  }

  lemma Quotient(length: real, gap: real)
    requires gap > 0.0
    ensures length / gap * gap == length
  {
  }

  lemma Monotone(a: real, b: real, factor: real)
    requires a <= b && factor > 0.0
    ensures a * factor <= b * factor
  {
    assert (b - a) * factor >= 0.0;
    assert (b - a) * factor == b * factor - a * factor;
  }

  /** The watchdog is engaged and a packet was accepted just now. */
  predicate Fed(s: System) {
    Engaged(s.watch) && s.quiet == s.now && s.now > 0.0
  }

  /** Packets, at most a gap apart, until a given time. */
  lemma {:induction false} Feed(p: Params, trace: Trace, until: real, n: nat) returns (longer: Trace)
    requires Sensible(p) && Admissible(p, trace) && Fed(StateAfter(p, trace))
    requires StateAfter(p, trace).now <= until <= StateAfter(p, trace).now + Steps(n, p.gap)
    ensures Admissible(p, longer) && Fed(StateAfter(p, longer))
    ensures var s, s' := StateAfter(p, trace), StateAfter(p, longer);
      && s'.now == until && s'.watch == s.watch && s'.port == s.port
      && (forall a :: a in s'.owed ==> a in s.owed || a >= s.now)
      && (until == s.now || (s.port in s.sent && until < s.sent[s.port] + p.interval) ==>
            s'.sent == s.sent && s'.owed == s.owed)
    decreases n
  {
    var s := StateAfter(p, trace);
    if until == s.now {
      longer := trace;
    } else {
      var t := if s.now + p.gap < until then s.now + p.gap else until;
      var next := Then(trace, Accept(t, s.port));
      assert StateAfter(p, next) == After(p, s, Accept(t, s.port));
      assert Steps(n, p.gap) == Steps(n - 1, p.gap) + p.gap;
      longer := Feed(p, next, until, n - 1);
    }
  }

  /** The first packet was accepted and its ACK sent. */
  function InFlight(): Trace {
    Then(Then(Then(Boot, Connect(1.0)), Csi(1.0)), Accept(1.0, 0))
  }

  lemma InFlightIs(p: Params)
    requires Sensible(p)
    ensures Admissible(p, InFlight()) && Any(p, InFlight())
    ensures StateAfter(p, InFlight()) ==
            System(1.0, Watch(true, 1.0, 1.0, 0.0, false), 0, map[0 := 1.0], 1.0, {1.0}, None)
  {
    var t1 := Then(Boot, Connect(1.0));
    var t2 := Then(t1, Csi(1.0));
    assert StateAfter(p, t1) == System(1.0, OFF.(connected := true), 0, map[], 0.0, {}, None);
    assert StateAfter(p, t2) == System(1.0, Watch(true, 1.0, 1.0, 0.0, false), 0, map[], 1.0, {}, None);
    assert Admissible(p, t1) && Any(p, t1);
    assert Admissible(p, t2) && Any(p, t2);
  }

  /** The first ACK, at time 1. */
  function FirstAck(): Trace {
    Then(InFlight(), Ack(1.0, 1.0))
  }

  lemma FirstAckIs(p: Params)
    requires Sensible(p)
    ensures Admissible(p, FirstAck())
    ensures var s := StateAfter(p, FirstAck());
      && s.watch == Watch(true, 1.0, 0.0, 1.0, true) && s.now == s.quiet == 1.0
      && s.port == 0 && s.sent == map[0 := 1.0] && s.owed == {}
  {
    InFlightIs(p);
  }

  /** Fed until the end of the delay of the last ACK that is still outstanding, the watchdog fires. */
  lemma FiresAtTheEnd(p: Params, trace: Trace)
    requires Sensible(p) && Admissible(p, trace)
    requires var s := StateAfter(p, trace);
      && Fed(s) && s.watch.connected && s.watch.armed && s.watch.lastAck > 0.0
      && s.now - s.watch.lastAck > p.timeout && forall a :: a in s.owed ==> s.now <= a + p.delay
    ensures exists longer :: Admissible(p, longer) && Resets(p, longer)
  {
    var s := StateAfter(p, trace);
    var seen := Then(trace, Csi(s.now));
    assert StateAfter(p, seen) == After(p, s, Csi(s.now));
    var polled := Then(seen, Poll(s.now));
    assert Admissible(p, polled) && Resets(p, polled);
  }

  /** The time of the last packet that the first ACK keeps from being acknowledged. */
  function LastThrottled(p: Params): (t: real)
    requires Sensible(p) && !Enough(p)
    ensures t >= 1.0 && (t == 1.0 || t < 1.0 + p.interval)
    ensures t + p.gap >= 1.0 + p.interval && t + p.gap + p.delay > 1.0 + p.timeout
  {
    var excess := p.interval + p.gap + p.delay - p.timeout;
    var margin := (if excess < p.gap then excess else p.gap) / 2.0;
    if p.interval > margin then 1.0 + p.interval - margin else 1.0
  }

  /** Up to that packet nothing but the first ACK is sent; the next packet comes a gap later. */
  lemma SecondAck(p: Params) returns (trace: Trace)
    requires Sensible(p) && !Enough(p)
    ensures Admissible(p, trace)
    ensures var s := StateAfter(p, trace);
      && s.now == s.quiet == LastThrottled(p) + p.gap && s.port == 0 && s.owed == {s.now}
      && s.watch == Watch(true, 1.0, 0.0, 1.0, true)
  {
    FirstAckIs(p);
    var quiet := LastThrottled(p);
    var n := EnoughSteps(quiet - 1.0, p.gap);
    var before := Feed(p, FirstAck(), quiet, n);
    trace := Then(before, Accept(quiet + p.gap, 0));
    assert StateAfter(p, trace) == After(p, StateAfter(p, before), Accept(quiet + p.gap, 0));
  }

  lemma FalseReset(p: Params)
    requires Sensible(p) && !Enough(p)
    ensures exists trace :: Admissible(p, trace) && Resets(p, trace)
  {
    var second := SecondAck(p);
    var n := EnoughSteps(p.delay, p.gap);
    var last := Feed(p, second, LastThrottled(p) + p.gap + p.delay, n);
    FiresAtTheEnd(p, last);
  }

  ghost predicate NeverResets(p: Params) {
    forall trace :: Admissible(p, trace) ==> !Resets(p, trace)
  }

  /**
   While the aggregator accepts packets at most `gap` apart and its ACKs take at most
   `delay`, the watchdog never resets the transport, in any run, exactly when the ACK
   interval, the gap and the delay together do not exceed the ACK timeout.
   */
  lemma NeverResetsIff(p: Params)
    requires Sensible(p)
    ensures NeverResets(p) <==> Enough(p)
  {
    if Enough(p) {
      forall trace | Admissible(p, trace) ensures !Resets(p, trace) {
        AlwaysSafe(p, trace);
      }
    } else {
      FalseReset(p);
    }
  }

  // ----------------------------------------------------------------------- outages

  /** A run, and the end of an outage: the connection is back, CSI comes again, the poll looks. */
  function Resumed(outage: Trace, t: real): Trace {
    Then(Then(Then(outage, Connect(t)), Csi(t)), Poll(t))
  }

  /** The poll at the end of an outage resets exactly when a count is older than the timeout. */
  lemma ResumedResetsWhen(p: Params, outage: Trace, t: real)
    requires Sensible(p) && Any(p, outage) && t > 0.0 && t >= StateAfter(p, outage).now
    ensures Any(p, Resumed(outage, t))
    ensures var w := StateAfter(p, outage).watch;
            Resets(p, Resumed(outage, t)) <==> Engaged(w) && t - Base(w) > p.timeout
  {
    AlwaysYounger(p, outage);
    var w := StateAfter(p, outage).watch;
    var connected := Then(outage, Connect(t));
    var seen := Then(connected, Csi(t));
    assert StateAfter(p, connected).watch == w.(connected := true);
    assert StateAfter(p, seen).watch == CsiSeen(w.(connected := true), t);
    assert Any(p, connected);
    assert Any(p, seen);
  }

  /** An outage is harmless, however long it lasts, exactly when the watchdog is not engaged when it ends. */
  lemma OutageIsHarmlessIff(p: Params, outage: Trace)
    requires Sensible(p) && Any(p, outage)
    ensures (forall t :: t > 0.0 && t >= StateAfter(p, outage).now ==> !Resets(p, Resumed(outage, t)))
       <==> !Engaged(StateAfter(p, outage).watch)
  {
    var s := StateAfter(p, outage);
    AlwaysYounger(p, outage);
    forall t | t > 0.0 && t >= s.now
      ensures Resets(p, Resumed(outage, t)) <==> Engaged(s.watch) && t - Base(s.watch) > p.timeout
    {
      ResumedResetsWhen(p, outage, t);
    }
    if Engaged(s.watch) {
      assert Resets(p, Resumed(outage, s.now + p.timeout + 1.0));
    }
  }

  /** The event ends the count: a disconnect, a send error, or a poll that finds the CSI idle or the count too old. */
  predicate Clears(p: Params, w: Watch, e: Event) {
    e.Disconnect? || e.SendError? || (e.Poll? && w.connected && w.lastCsi != 0.0 && (Idle(p, w, e.t) || Fires(p, w, e.t)))
  }

  /** CSI or an ACK was handled, connected or not, and nothing has cleared the count since. */
  predicate Counting(p: Params, trace: Trace) {
    trace.Then? &&
    (trace.e.Csi? || trace.e.Ack? || (!Clears(p, StateAfter(p, trace.before).watch, trace.e) && Counting(p, trace.before)))
  }

  lemma {:induction false} EngagedIffCounting(p: Params, trace: Trace)
    requires Any(p, trace)
    ensures Engaged(StateAfter(p, trace).watch) <==> Counting(p, trace)
  {
    if trace.Then? {
      EngagedIffCounting(p, trace.before);
    }
  }

  /** Neither CSI nor an ACK was handled since the last disconnect, or since the start. */
  predicate Silent(trace: Trace) {
    trace.Then? ==> trace.e.Disconnect? || (!trace.e.Csi? && !trace.e.Ack? && Silent(trace.before))
  }

  lemma {:induction false} SilentIsNotCounting(p: Params, trace: Trace)
    requires Silent(trace)
    ensures !Counting(p, trace)
  {
    if trace.Then? && !trace.e.Disconnect? {
      SilentIsNotCounting(p, trace.before);
    }
  }

  /** After a silent outage, however long, the first poll does not reset. */
  lemma SilentOutageIsHarmless(p: Params, outage: Trace, t: real)
    requires Sensible(p) && Any(p, outage) && Silent(outage) && t > 0.0 && t >= StateAfter(p, outage).now
    ensures !Resets(p, Resumed(outage, t))
  {
    SilentIsNotCounting(p, outage);
    EngagedIffCounting(p, outage);
    ResumedResetsWhen(p, outage, t);
  }

  /** One way to a false reset: the first ACK is in flight at the disconnect and handled after it. */
  function StrayAck(): Trace {
    Then(Then(InFlight(), Disconnect(2.0)), Ack(3.0, 1.0))
  }

  lemma StrayAckFires(p: Params, t: real)
    requires Sensible(p) && t > 3.0 + p.timeout
    ensures 1.0 in StateAfter(p, InFlight()).owed
    ensures Any(p, Resumed(StrayAck(), t)) && Resets(p, Resumed(StrayAck(), t))
  {
    InFlightIs(p);
    var lost := Then(InFlight(), Disconnect(2.0));
    assert StateAfter(p, lost).watch == OFF && StateAfter(p, lost).now == 2.0;
    assert Any(p, lost);
    assert StateAfter(p, StrayAck()).watch == OFF.(lastAck := 3.0, armed := true);
    assert Any(p, StrayAck());
    ResumedResetsWhen(p, StrayAck(), t);
  }

  /** Another: the CSI callback does not ask whether the station is connected. */
  function EarlyCsi(): Trace {
    Then(Then(Then(Boot, Connect(1.0)), Disconnect(2.0)), Csi(3.0))
  }

  lemma EarlyCsiFires(p: Params, t: real)
    requires Sensible(p) && t > 3.0 + p.timeout
    ensures Any(p, Resumed(EarlyCsi(), t)) && Resets(p, Resumed(EarlyCsi(), t))
  {
    var t1 := Then(Boot, Connect(1.0));
    var t2 := Then(t1, Disconnect(2.0));
    assert StateAfter(p, t1).watch == OFF.(connected := true) && StateAfter(p, t1).now == 1.0;
    assert StateAfter(p, t2).watch == OFF && StateAfter(p, t2).now == 2.0;
    assert Any(p, t1);
    assert Any(p, t2);
    assert StateAfter(p, EarlyCsi()).watch == OFF.(lastCsi := 3.0, firstUnacked := 3.0);
    assert Any(p, EarlyCsi());
    ResumedResetsWhen(p, EarlyCsi(), t);
  }
}
