/**
 Why the scheduler refuses a request. Over every run each start and each refusal is justified by what the trace holds
 before it: a timeout by the deadline, a start or a cooldown; an abort by its signal; a closed scheduler by the closing;
 a full queue by the requests still open.
 */
module RpcRefusals {
  import opened Prelude
  import opened RpcScheduler

  /** Requests queued and neither begun nor refused. */
  function Open(trace: seq<Event>): int
  {
    if trace == [] then 0
    else Open(trace[..|trace| - 1]) + match trace[|trace| - 1]
      case Queued(_, _) => 1
      case Begun(_, _, _) => -1
      case Refused(_, _) => -1
      case _ => 0
  }

  /** A start or a cooldown keeps everybody waiting up to this time. */
  ghost predicate HeldBack(cfg: Config, trace: seq<Event>, deadline: int)
  {
    exists x :: x in trace && ((x.Begun? && deadline <= x.at + cfg.interval) || (x.Cooled? && deadline <= x.until))
  }

  /** At a clock reading the request could not start before its deadline any more. Time starts at zero. */
  ghost predicate TooLate(cfg: Config, trace: seq<Event>, deadline: int, at: int)
  {
    deadline <= at || deadline <= 0 || HeldBack(cfg, trace, deadline)
  }

  ghost predicate Justified(cfg: Config, before: seq<Event>, e: Event)
  {
    match e
    case Begun(id, _, deadline) => Queued(id, deadline) in before
    case Refused(id, code) => RefusalJustified(cfg, before, id, code)
    case Turned(id, code) =>
      (match code
       case Aborted => Signalled(id) in before
       case BackoffInvalid => Closed in before
       case QueueFull => Open(before) >= cfg.maxQueue
       case TimedOut(_) => false)
    case _ => true
  }

  ghost predicate RefusalJustified(cfg: Config, before: seq<Event>, id: nat, code: Code)
  {
    match code
    case TimedOut(at) => exists deadline :: Queued(id, deadline) in before && TooLate(cfg, before, deadline, at)
    case Aborted => Signalled(id) in before
    case BackoffInvalid => Closed in before
    case QueueFull => false
  }

  ghost predicate JustifiedAt(cfg: Config, trace: seq<Event>, j: int)
  {
    0 <= j < |trace| ==> Justified(cfg, trace[..j], trace[j])
  }

  ghost predicate AllJustified(cfg: Config, trace: seq<Event>)
  {
    forall j :: JustifiedAt(cfg, trace, j)
  }

  lemma JustifiedSnoc(cfg: Config, trace: seq<Event>, e: Event)
    requires AllJustified(cfg, trace) && Justified(cfg, trace, e)
    ensures AllJustified(cfg, trace + [e])
  {
    var longer := trace + [e];
    forall j ensures JustifiedAt(cfg, longer, j) {
      assert JustifiedAt(cfg, trace, j);
      if 0 <= j < |trace| { assert longer[..j] == trace[..j]; }
      else if j == |trace| { assert longer[..j] == trace; }
    }
  }

  lemma OpenSnoc(trace: seq<Event>, e: Event)
    ensures Open(trace + [e]) == Open(trace) + if e.Queued? then 1 else if e.Begun? || e.Refused? then -1 else 0
  {
    assert (trace + [e])[..|trace|] == trace;
  }

  /** A waiting request was queued with its deadline, and its signal is set only if it was signalled. */
  ghost predicate WaiterTraced(trace: seq<Event>, w: Waiter)
  {
    Queued(w.id, w.deadline) in trace && (w.aborted ==> Signalled(w.id) in trace)
  }

  /** What the scheduler keeps waiting for comes from a start or a cooldown. */
  ghost predicate FieldsTraced(cfg: Config, s: State)
  {
    && (s.nextStartAt == 0 || exists x :: x in s.trace && x.Begun? && s.nextStartAt == x.at + cfg.interval)
    && (s.cooldownUntil == 0 || exists x :: x in s.trace && x.Cooled? && s.cooldownUntil == x.until)
    && (s.closed ==> Closed in s.trace)
  }

  /** How a call was settled is on record. */
  ghost predicate OutcomeTraced(s: State, id: nat)
  {
    id in s.outcome ==>
      match s.outcome[id]
      case Started => exists x :: x in s.trace && x.Begun? && x.id == id
      case Rejected(code) => Refused(id, code) in s.trace || Turned(id, code) in s.trace
  }

  ghost predicate Accounted(cfg: Config, s: State)
  {
    && AllJustified(cfg, s.trace) && FieldsTraced(cfg, s) && Open(s.trace) == |s.queue|
    && (forall w | w in s.queue :: WaiterTraced(s.trace, w))
    && (forall id :: OutcomeTraced(s, id))
  }

  lemma Late(cfg: Config, s: State, deadline: int, now: int)
    requires FieldsTraced(cfg, s) && deadline <= Max(now, Max(s.nextStartAt, s.cooldownUntil))
    ensures TooLate(cfg, s.trace, deadline, now)
  {
    if deadline > now && deadline > 0 {
      if deadline <= s.nextStartAt {
        var x :| x in s.trace && x.Begun? && s.nextStartAt == x.at + cfg.interval;
        assert x in s.trace && x.Begun? && deadline <= x.at + cfg.interval;
      } else {
        var x :| x in s.trace && x.Cooled? && s.cooldownUntil == x.until;
        assert x in s.trace && x.Cooled? && deadline <= x.until;
      }
    }
  }

  /** The event settles this call in this way. */
  predicate Settles(e: Event, id: nat, outcome: Outcome)
  {
    (e.Begun? && e.id == id && outcome.Started?) || ((e.Refused? || e.Turned?) && e.id == id && outcome == Rejected(e.code))
  }

  /** The parts that only look for events in the trace survive any event. */
  lemma TracedGrow(cfg: Config, s: State, t: State, e: Event)
    requires FieldsTraced(cfg, s) && (forall id :: OutcomeTraced(s, id)) && t.trace == s.trace + [e]
    requires t.nextStartAt == s.nextStartAt || (e.Begun? && t.nextStartAt == e.at + cfg.interval)
    requires t.cooldownUntil == s.cooldownUntil || (e.Cooled? && t.cooldownUntil == e.until)
    requires t.closed == s.closed || e.Closed?
    requires forall id | id in t.outcome :: (id in s.outcome && t.outcome[id] == s.outcome[id]) || Settles(e, id, t.outcome[id])
    ensures FieldsTraced(cfg, t) && forall id :: OutcomeTraced(t, id)
  {
    assert e in t.trace && forall x | x in s.trace :: x in t.trace;
    forall id ensures OutcomeTraced(t, id) {
      assert OutcomeTraced(s, id);
      if id in t.outcome && id in s.outcome && t.outcome[id] == s.outcome[id] && t.outcome[id].Started? {
        var x :| x in s.trace && x.Begun? && x.id == id;
        assert x in t.trace;
      }
    }
    if t.nextStartAt == s.nextStartAt && s.nextStartAt != 0 {
      var x :| x in s.trace && x.Begun? && s.nextStartAt == x.at + cfg.interval;
      assert x in t.trace;
    }
    if t.cooldownUntil == s.cooldownUntil && s.cooldownUntil != 0 {
      var x :| x in s.trace && x.Cooled? && s.cooldownUntil == x.until;
      assert x in t.trace;
    }
  }

  lemma WaitersGrow(trace: seq<Event>, e: Event, w: Waiter)
    requires WaiterTraced(trace, w)
    ensures WaiterTraced(trace + [e], w)
  {
  }

  lemma DropAccounted(cfg: Config, s: State, i: nat, code: Code)
    requires Accounted(cfg, s) && i < |s.queue| && RefusalJustified(cfg, s.trace, s.queue[i].id, code)
    ensures Accounted(cfg, Drop(s, i, code))
  {
    var t, e := Drop(s, i, code), Refused(s.queue[i].id, code);
    JustifiedSnoc(cfg, s.trace, e);
    OpenSnoc(s.trace, e);
    TracedGrow(cfg, s, t, e);
    forall w | w in t.queue ensures WaiterTraced(t.trace, w) {
      assert w in s.queue;
      WaitersGrow(s.trace, e, w);
    }
  }

  lemma BeginAccounted(cfg: Config, s: State, now: int)
    requires Accounted(cfg, s) && s.queue != []
    ensures Accounted(cfg, Begin(cfg, s, now))
  {
    var t, e := Begin(cfg, s, now), Begun(s.queue[0].id, now, s.queue[0].deadline);
    assert WaiterTraced(s.trace, s.queue[0]);
    JustifiedSnoc(cfg, s.trace, e);
    OpenSnoc(s.trace, e);
    TracedGrow(cfg, s, t, e);
    forall w | w in t.queue ensures WaiterTraced(t.trace, w) {
      assert w in s.queue;
      WaitersGrow(s.trace, e, w);
    }
  }

  lemma TickAccounted(cfg: Config, s: State, t: State)
    requires Accounted(cfg, s) && t == s.(ticks := t.ticks, timer := t.timer)
    ensures Accounted(cfg, t)
  {
    forall id ensures OutcomeTraced(t, id) { assert OutcomeTraced(s, id); }
  }

  lemma Timeout(cfg: Config, s: State, i: nat, now: int)
    requires Accounted(cfg, s) && i < |s.queue| && s.queue[i].deadline <= Max(now, Max(s.nextStartAt, s.cooldownUntil))
    ensures RefusalJustified(cfg, s.trace, s.queue[i].id, TimedOut(now))
  {
    assert WaiterTraced(s.trace, s.queue[i]);
    Late(cfg, s, s.queue[i].deadline, now);
    assert Queued(s.queue[i].id, s.queue[i].deadline) in s.trace && TooLate(cfg, s.trace, s.queue[i].deadline, now);
  }

  lemma {:induction false} PurgeAccounted(cfg: Config, s: State, now: int, n: nat)
    requires Accounted(cfg, s) && n <= |s.queue|
    ensures Accounted(cfg, Purge(s, now, n))
    decreases n
  {
    if n > 0 {
      if s.queue[n - 1].deadline <= now {
        Timeout(cfg, s, n - 1, now);
        DropAccounted(cfg, s, n - 1, TimedOut(now));
      }
      PurgeAccounted(cfg, if s.queue[n - 1].deadline <= now then Drop(s, n - 1, TimedOut(now)) else s, now, n - 1);
    }
  }

  lemma CancelAccounted(cfg: Config, s: State, now: int)
    requires Accounted(cfg, s) && s.queue != [] && Judge(s, now).Cancel?
    ensures Accounted(cfg, Looked(cfg, s, now))
  {
    var r := s.(ticks := s.ticks + 1);
    TickAccounted(cfg, s, r);
    assert WaiterTraced(s.trace, s.queue[0]);
    DropAccounted(cfg, r, 0, Aborted);
  }

  lemma ExpireAccounted(cfg: Config, s: State, now: int)
    requires Accounted(cfg, s) && s.queue != [] && Judge(s, now).Expire?
    ensures Accounted(cfg, Looked(cfg, s, now))
  {
    var r := s.(ticks := s.ticks + 1);
    TickAccounted(cfg, s, r);
    Timeout(cfg, r, 0, now);
    DropAccounted(cfg, r, 0, TimedOut(now));
  }

  lemma GoAccounted(cfg: Config, s: State, now: int)
    requires Accounted(cfg, s) && s.queue != [] && Judge(s, now).Go?
    ensures Accounted(cfg, Looked(cfg, s, now))
  {
    var r := s.(ticks := s.ticks + 1);
    TickAccounted(cfg, s, r);
    BeginAccounted(cfg, r, now);
  }

  lemma WaitAccounted(cfg: Config, s: State, now: int)
    requires Accounted(cfg, s) && s.queue != [] && Judge(s, now).Wait?
    ensures Accounted(cfg, Looked(cfg, s, now))
  {
    TickAccounted(cfg, s, Looked(cfg, s, now));
  }

  lemma LookAccounted(cfg: Config, s: State, now: int)
    requires Accounted(cfg, s) && s.queue != []
    ensures Accounted(cfg, Looked(cfg, s, now))
  {
    match Judge(s, now)
    case Cancel => CancelAccounted(cfg, s, now);
    case Expire => ExpireAccounted(cfg, s, now);
    case Wait(_) => WaitAccounted(cfg, s, now);
    case Go => GoAccounted(cfg, s, now);
  }

  lemma {:induction false} LoopAccounted(cfg: Config, clock: Clock, s: State)
    requires Accounted(cfg, s)
    ensures Accounted(cfg, Loop(cfg, clock, s))
    decreases |s.queue|, 0
  {
    if s.queue != [] {
      var now := clock(s.ticks);
      var t := Looked(cfg, s, now);
      LookAccounted(cfg, s, now);
      match Judge(s, now)
      case Cancel =>
        PumpAccounted(cfg, clock, t);
        LoopAccounted(cfg, clock, Pump(cfg, clock, t));
      case Wait(_) =>
      case _ => LoopAccounted(cfg, clock, t);
    }
  }

  lemma {:induction false} PumpAccounted(cfg: Config, clock: Clock, s: State)
    requires Accounted(cfg, s)
    ensures Accounted(cfg, Pump(cfg, clock, s))
    decreases |s.queue|, 1
  {
    var r := s.(timer := None, ticks := s.ticks + 1);
    TickAccounted(cfg, s, r);
    PurgeAccounted(cfg, r, clock(s.ticks), |s.queue|);
    LoopAccounted(cfg, clock, Purge(r, clock(s.ticks), |s.queue|));
  }

  /** An event that settles nobody and queues nobody. */
  lemma NoteAccounted(cfg: Config, s: State, t: State, e: Event)
    requires Accounted(cfg, s) && (e.Signalled? || e.Cooled? || e.Closed?)
    requires t == s.(closed := t.closed, timer := t.timer, ticks := t.ticks, calls := t.calls, cooldownUntil := t.cooldownUntil, trace := s.trace + [e])
    requires (t.cooldownUntil == s.cooldownUntil || (e.Cooled? && t.cooldownUntil == e.until)) && (t.closed == s.closed || e.Closed?)
    ensures Accounted(cfg, t)
  {
    JustifiedSnoc(cfg, s.trace, e);
    OpenSnoc(s.trace, e);
    TracedGrow(cfg, s, t, e);
    forall w | w in t.queue ensures WaiterTraced(t.trace, w) { WaitersGrow(s.trace, e, w); }
  }

  lemma SettleAccounted(cfg: Config, s: State, id: nat, code: Code)
    requires Accounted(cfg, s) && Justified(cfg, s.trace, Turned(id, code))
    ensures Accounted(cfg, Settle(s, id, code))
  {
    var t, e := Settle(s, id, code), Turned(id, code);
    JustifiedSnoc(cfg, s.trace, e);
    OpenSnoc(s.trace, e);
    TracedGrow(cfg, s, t, e);
    forall w | w in t.queue ensures WaiterTraced(t.trace, w) { WaitersGrow(s.trace, e, w); }
  }

  lemma JoinAccounted(cfg: Config, s: State, deadline: int)
    requires Accounted(cfg, s)
    ensures Accounted(cfg, Joined(s, deadline))
  {
    var t, e := Joined(s, deadline), Queued(s.calls, deadline);
    JustifiedSnoc(cfg, s.trace, e);
    OpenSnoc(s.trace, e);
    TracedGrow(cfg, s, t, e);
    assert e in t.trace;
    forall w | w in t.queue ensures WaiterTraced(t.trace, w) {
      if w in s.queue { WaitersGrow(s.trace, e, w); }
    }
  }

  lemma CallsAccounted(cfg: Config, s: State, t: State)
    requires Accounted(cfg, s) && t == s.(calls := t.calls)
    ensures Accounted(cfg, t)
  {
    forall id ensures OutcomeTraced(t, id) { assert OutcomeTraced(s, id); }
  }

  /** The caller's signal is set before the call is queued. */
  lemma AbortedAtDoor(cfg: Config, s: State)
    requires Accounted(cfg, s)
    ensures Accounted(cfg, Settle(Noted(s.(calls := s.calls + 1), Signalled(s.calls)), s.calls, Aborted))
  {
    var r := s.(calls := s.calls + 1);
    CallsAccounted(cfg, s, r);
    var told := Noted(r, Signalled(s.calls));
    NoteAccounted(cfg, r, told, Signalled(s.calls));
    assert Signalled(s.calls) in told.trace;
    SettleAccounted(cfg, told, s.calls, Aborted);
  }

  lemma RefusedAtDoor(cfg: Config, s: State, code: Code)
    requires Accounted(cfg, s) && Justified(cfg, s.trace, Turned(s.calls, code))
    ensures Accounted(cfg, Settle(s.(calls := s.calls + 1), s.calls, code))
  {
    var r := s.(calls := s.calls + 1);
    CallsAccounted(cfg, s, r);
    SettleAccounted(cfg, r, s.calls, code);
  }

  lemma QueuedAccounted(cfg: Config, clock: Clock, s: State, deadline: int)
    requires Accounted(cfg, s) && !s.closed && |s.queue| < cfg.maxQueue
    ensures Accounted(cfg, Acquire(cfg, clock, s, deadline, false, false))
  {
    JoinAccounted(cfg, s, deadline);
    PumpAccounted(cfg, clock, Joined(s, deadline));
  }

  lemma LateAccounted(cfg: Config, clock: Clock, s: State, deadline: int)
    requires Accounted(cfg, s) && !s.closed && |s.queue| < cfg.maxQueue
    ensures Accounted(cfg, Acquire(cfg, clock, s, deadline, false, true))
  {
    AbortedAtDoor(cfg, s);
    PumpAccounted(cfg, clock, Settle(Noted(s.(calls := s.calls + 1), Signalled(s.calls)), s.calls, Aborted));
  }

  lemma TurnedAccounted(cfg: Config, clock: Clock, s: State, deadline: int, aborted: bool, late: bool)
    requires Accounted(cfg, s) && (s.closed || aborted || |s.queue| >= cfg.maxQueue)
    ensures Accounted(cfg, Acquire(cfg, clock, s, deadline, aborted, late))
  {
    if s.closed { RefusedAtDoor(cfg, s, BackoffInvalid); }
    else if aborted { AbortedAtDoor(cfg, s); }
    else { RefusedAtDoor(cfg, s, QueueFull); }
  }

  lemma AcquireAccounted(cfg: Config, clock: Clock, s: State, deadline: int, aborted: bool, late: bool)
    requires Accounted(cfg, s)
    ensures Accounted(cfg, Acquire(cfg, clock, s, deadline, aborted, late))
  {
    if s.closed || aborted || |s.queue| >= cfg.maxQueue { TurnedAccounted(cfg, clock, s, deadline, aborted, late); }
    else if late { LateAccounted(cfg, clock, s, deadline); }
    else { QueuedAccounted(cfg, clock, s, deadline); }
  }

  lemma {:induction false} DropAllAccounted(cfg: Config, s: State, n: nat)
    requires Accounted(cfg, s) && n <= |s.queue| && Closed in s.trace
    ensures Accounted(cfg, DropAll(s, n))
    decreases n
  {
    if n > 0 {
      DropAccounted(cfg, s, 0, BackoffInvalid);
      assert Closed in Drop(s, 0, BackoffInvalid).trace;
      DropAllAccounted(cfg, Drop(s, 0, BackoffInvalid), n - 1);
    }
  }

  lemma FailClosedAccounted(cfg: Config, s: State)
    requires Accounted(cfg, s)
    ensures Accounted(cfg, FailClosed(s))
  {
    var t := s.(closed := true, timer := None, trace := s.trace + [Closed]);
    NoteAccounted(cfg, s, t, Closed);
    assert Closed in t.trace;
    DropAllAccounted(cfg, t, |s.queue|);
  }

  lemma CooldownAccounted(cfg: Config, clock: Clock, s: State, milliseconds: int)
    requires Accounted(cfg, s)
    ensures Accounted(cfg, ApplyCooldown(cfg, clock, s, milliseconds))
  {
    if milliseconds <= 0 || milliseconds > MAX_TIMER_DELAY_MS {
      FailClosedAccounted(cfg, s);
    } else {
      var until := clock(s.ticks) + milliseconds;
      var t := s.(ticks := s.ticks + 1, cooldownUntil := Max(s.cooldownUntil, until), trace := s.trace + [Cooled(until)]);
      NoteAccounted(cfg, s, t, Cooled(until));
      PumpAccounted(cfg, clock, t);
    }
  }

  lemma MarkAccounted(cfg: Config, s: State, id: nat)
    requires Accounted(cfg, s)
    ensures Accounted(cfg, MarkAborted(s, id))
  {
    var i, t := IndexOf(s.queue, id), MarkAborted(s, id);
    if i < |s.queue| {
      var e := Signalled(id);
      JustifiedSnoc(cfg, s.trace, e);
      OpenSnoc(s.trace, e);
      TracedGrow(cfg, s, t, e);
      assert e in t.trace;
      forall w | w in t.queue ensures WaiterTraced(t.trace, w) {
        if w in s.queue { WaitersGrow(s.trace, e, w); }
        else { WaitersGrow(s.trace, e, s.queue[i]); }
      }
    }
  }

  lemma AbortAccounted(cfg: Config, clock: Clock, s: State, id: nat)
    requires Accounted(cfg, s)
    ensures Accounted(cfg, Abort(cfg, clock, s, id))
  {
    var i := IndexOf(s.queue, id);
    if i < |s.queue| {
      var told := MarkAborted(s, id);
      MarkAccounted(cfg, s, id);
      assert Signalled(id) in told.trace && told.queue[i].id == id;
      DropAccounted(cfg, told, i, Aborted);
      PumpAccounted(cfg, clock, Drop(told, i, Aborted));
    }
  }

  lemma ApplyAccounted(cfg: Config, clock: Clock, s: State, x: Input)
    requires Accounted(cfg, s)
    ensures Accounted(cfg, Apply(cfg, clock, s, x))
  {
    match x
    case AcquireCall(deadline, aborted, late) => AcquireAccounted(cfg, clock, s, deadline, aborted, late);
    case SignalSet(id) => MarkAccounted(cfg, s, id);
    case AbortListener(id) => AbortAccounted(cfg, clock, s, id);
    case CooldownCall(milliseconds) => CooldownAccounted(cfg, clock, s, milliseconds);
    case TimerFires => PumpAccounted(cfg, clock, s);
    case FailClosedCall => FailClosedAccounted(cfg, s);
  }

  lemma {:induction false} RunAccounted(cfg: Config, clock: Clock, s: State, inputs: seq<Input>)
    requires Accounted(cfg, s)
    ensures Accounted(cfg, Run(cfg, clock, s, inputs))
    decreases |inputs|
  {
    if inputs != [] {
      ApplyAccounted(cfg, clock, s, inputs[0]);
      RunAccounted(cfg, clock, Apply(cfg, clock, s, inputs[0]), inputs[1..]);
    }
  }

  /**
   Over every run: every start and every refusal is justified by the events before it, every settled call is on record,
   and as many requests are open as the queue holds. In particular a request whose deadline lies ahead of the clock,
   of every start plus the interval and of every cooldown is never timed out.
   */
  lemma RefusalsAreJustified(cfg: Config, clock: Clock, inputs: seq<Input>)
    ensures Accounted(cfg, Run(cfg, clock, Fresh(), inputs))
  {
    RunAccounted(cfg, clock, Fresh(), inputs);
  }

  // ----- whoever has time gets a start or waits -----

  /** The request could start at or after this reading, before its deadline. */
  predicate HasTime(cfg: Config, s: State, w: Waiter, now: int)
  {
    !w.aborted && now < w.deadline && Max(s.nextStartAt, s.cooldownUntil) < w.deadline
  }

  /** A head that has time is not refused: it starts or keeps waiting with a timer set. */
  lemma HeadWithTime(cfg: Config, s: State, now: int)
    requires s.queue != [] && HasTime(cfg, s, s.queue[0], now)
    ensures var t, w := Looked(cfg, s, now), s.queue[0];
      if Max(s.nextStartAt, s.cooldownUntil) <= now
      then t.queue == s.queue[1..] && t.trace == s.trace + [Begun(w.id, now, w.deadline)] && t.nextStartAt == now + cfg.interval
      else t.queue == s.queue && t.trace == s.trace && t.timer.Some? && now < Max(s.nextStartAt, s.cooldownUntil)
  {
  }

  // ----- events stay in order -----

  lemma {:induction false} PurgeGrows(s: State, now: int, n: nat)
    requires n <= |s.queue|
    ensures s.trace <= Purge(s, now, n).trace
    decreases n
  {
    if n > 0 { PurgeGrows(if s.queue[n - 1].deadline <= now then Drop(s, n - 1, TimedOut(now)) else s, now, n - 1); }
  }

  lemma {:induction false} LoopGrows(cfg: Config, clock: Clock, s: State)
    ensures s.trace <= Loop(cfg, clock, s).trace
    decreases |s.queue|, 0
  {
    if s.queue != [] {
      var now := clock(s.ticks);
      var t := Looked(cfg, s, now);
      match Judge(s, now)
      case Cancel =>
        PumpGrows(cfg, clock, t);
        LoopGrows(cfg, clock, Pump(cfg, clock, t));
      case Wait(_) =>
      case _ => LoopGrows(cfg, clock, t);
    }
  }

  lemma {:induction false} PumpGrows(cfg: Config, clock: Clock, s: State)
    ensures s.trace <= Pump(cfg, clock, s).trace
    decreases |s.queue|, 1
  {
    var r := s.(timer := None, ticks := s.ticks + 1);
    PurgeGrows(r, clock(s.ticks), |s.queue|);
    LoopGrows(cfg, clock, Purge(r, clock(s.ticks), |s.queue|));
  }

  lemma {:induction false} DropAllGrows(s: State, n: nat)
    requires n <= |s.queue|
    ensures s.trace <= DropAll(s, n).trace
    decreases n
  {
    if n > 0 { DropAllGrows(Drop(s, 0, BackoffInvalid), n - 1); }
  }

  lemma ApplyGrows(cfg: Config, clock: Clock, s: State, x: Input)
    ensures s.trace <= Apply(cfg, clock, s, x).trace
  {
    match x
    case AcquireCall(deadline, aborted, late) =>
      PumpGrows(cfg, clock, Joined(s, deadline));
      PumpGrows(cfg, clock, Settle(Noted(s.(calls := s.calls + 1), Signalled(s.calls)), s.calls, Aborted));
    case SignalSet(id) =>
    case AbortListener(id) =>
      var i := IndexOf(s.queue, id);
      if i < |s.queue| { PumpGrows(cfg, clock, Drop(MarkAborted(s, id), i, Aborted)); }
    case CooldownCall(milliseconds) => CooldownGrows(cfg, clock, s, milliseconds);
    case TimerFires => PumpGrows(cfg, clock, s);
    case FailClosedCall => ClosingGrows(s);
  }

  lemma ClosingGrows(s: State)
    ensures s.trace + [Closed] <= FailClosed(s).trace
  {
    DropAllGrows(s.(closed := true, timer := None, trace := s.trace + [Closed]), |s.queue|);
  }

  lemma CooldownGrows(cfg: Config, clock: Clock, s: State, milliseconds: int)
    ensures s.trace <= ApplyCooldown(cfg, clock, s, milliseconds).trace
    ensures 0 < milliseconds <= 2_147_483_647 ==>
      s.trace + [Cooled(clock(s.ticks) + milliseconds)] <= ApplyCooldown(cfg, clock, s, milliseconds).trace
  {
    if milliseconds <= 0 || milliseconds > MAX_TIMER_DELAY_MS {
      ClosingGrows(s);
    } else {
      var until := clock(s.ticks) + milliseconds;
      PumpGrows(cfg, clock, s.(ticks := s.ticks + 1, cooldownUntil := Max(s.cooldownUntil, until), trace := s.trace + [Cooled(until)]));
    }
  }

  lemma {:induction false} RunGrows(cfg: Config, clock: Clock, s: State, inputs: seq<Input>)
    ensures s.trace <= Run(cfg, clock, s, inputs).trace
    decreases |inputs|
  {
    if inputs != [] {
      ApplyGrows(cfg, clock, s, inputs[0]);
      RunGrows(cfg, clock, Apply(cfg, clock, s, inputs[0]), inputs[1..]);
    }
  }

  lemma {:induction false} RunAppend(cfg: Config, clock: Clock, s: State, a: seq<Input>, b: seq<Input>)
    ensures Run(cfg, clock, s, a + b) == Run(cfg, clock, Run(cfg, clock, s, a), b)
    decreases |a|
  {
    if a == [] {
      assert a + b == b;
    } else {
      assert (a + b)[1..] == a[1..] + b;
      RunAppend(cfg, clock, Apply(cfg, clock, s, a[0]), a[1..], b);
    }
  }

  /** After a valid cooldown call nothing starts before the clock reading of the call plus the delay, in whatever follows. */
  lemma CooldownHonoured(cfg: Config, clock: Clock, inputs: seq<Input>, milliseconds: int, later: seq<Input>)
    requires 0 < milliseconds <= 2_147_483_647
    ensures var s := Run(cfg, clock, Fresh(), inputs); var t := Run(cfg, clock, s, [CooldownCall(milliseconds)] + later);
      s.trace <= t.trace && forall j | |s.trace| <= j < |t.trace| && t.trace[j].Begun? :: clock(s.ticks) + milliseconds <= t.trace[j].at
  {
    var s := Run(cfg, clock, Fresh(), inputs);
    var all := [CooldownCall(milliseconds)] + later;
    var t := Run(cfg, clock, s, all);
    assert all[1..] == later;
    CooldownGrows(cfg, clock, s, milliseconds);
    RunGrows(cfg, clock, ApplyCooldown(cfg, clock, s, milliseconds), later);
    RunAppend(cfg, clock, Fresh(), inputs, all);
    SchedulerIsSafe(cfg, clock, inputs + all);
    assert t.trace[|s.trace|] == Cooled(clock(s.ticks) + milliseconds);
    forall j | |s.trace| <= j < |t.trace| && t.trace[j].Begun? ensures clock(s.ticks) + milliseconds <= t.trace[j].at {
      assert Follows(cfg, t.trace[|s.trace|], t.trace[j]);
    }
  }

  /** After failing closed, or a cooldown that is no valid delay, nothing starts any more. */
  lemma ClosedForGood(cfg: Config, clock: Clock, inputs: seq<Input>, x: Input, later: seq<Input>)
    requires x.FailClosedCall? || (x.CooldownCall? && !(0 < x.milliseconds <= 2_147_483_647))
    ensures var s := Run(cfg, clock, Fresh(), inputs); var t := Run(cfg, clock, s, [x] + later);
      s.trace <= t.trace && forall j | |s.trace| <= j < |t.trace| :: !t.trace[j].Begun?
  {
    var s := Run(cfg, clock, Fresh(), inputs);
    var all := [x] + later;
    var t := Run(cfg, clock, s, all);
    assert all[1..] == later;
    ClosingGrows(s);
    RunGrows(cfg, clock, FailClosed(s), later);
    RunAppend(cfg, clock, Fresh(), inputs, all);
    SchedulerIsSafe(cfg, clock, inputs + all);
    assert t.trace[|s.trace|] == Closed;
    forall j | |s.trace| <= j < |t.trace| ensures !t.trace[j].Begun? {
      if |s.trace| < j { assert Follows(cfg, t.trace[|s.trace|], t.trace[j]); }
    }
  }
}
