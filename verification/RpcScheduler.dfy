/**
 RpcStartScheduler (packages/hosted-devnet/src/chain.ts): requests queue for the right to start, at most one per
 interval, never in a cooldown, never at or past their deadline.

 The clock answers the n-th call of Date.now() in the run with clock(n); nothing below needs it to be monotone. A request is known by
 the number of its acquire call. `trace` records in order what happens to requests, cooldowns and the closing.
 */
module RpcScheduler {
  import opened Prelude

  const MAX_TIMER_DELAY_MS: int := 2_147_483_647

  type Clock = nat -> int

  datatype Config = Config(interval: nat, maxQueue: nat)

  /** `aborted` is the state of the caller's signal, which may be set before its listener has run. */
  datatype Waiter = Waiter(id: nat, deadline: int, aborted: bool)

  /** A timeout says at which clock reading it was decided. */
  datatype Code = Aborted | QueueFull | TimedOut(at: int) | BackoffInvalid

  datatype Outcome = Started | Rejected(code: Code)

  /** A request is turned away at the door, or queued and then begun or refused; its signal may be set at any time. */
  datatype Event =
    | Queued(id: nat, deadline: int)
    | Turned(id: nat, code: Code)
    | Begun(id: nat, at: int, deadline: int)
    | Refused(id: nat, code: Code)
    | Signalled(id: nat)
    | Cooled(until: int)
    | Closed

  datatype State = State(
    queue: seq<Waiter>, timer: Option<int>, nextStartAt: int, cooldownUntil: int, closed: bool,
    ticks: nat, calls: nat, outcome: map<nat, Outcome>, trace: seq<Event>)

  function Fresh(): State { State([], None, 0, 0, false, 0, 0, map[], []) }

  function Max(a: int, b: int): int { if a < b then b else a }
  function Min(a: int, b: int): int { if a < b then a else b }

  // ----- one pump -----

  function Without(queue: seq<Waiter>, i: nat): seq<Waiter>
    requires i < |queue|
  {
    queue[..i] + queue[i + 1..]
  }

  /** A queued request is settled without starting. */
  function Drop(s: State, i: nat, code: Code): State
    requires i < |s.queue|
  {
    var id := s.queue[i].id;
    s.(queue := Without(s.queue, i), outcome := s.outcome[id := Rejected(code)], trace := s.trace + [Refused(id, code)])
  }

  /** The first loop of pump, from the back of the queue. */
  function Purge(s: State, now: int, n: nat): (t: State)
    requires n <= |s.queue|
    ensures |t.queue| <= |s.queue|
    decreases n
  {
    if n == 0 then s
    else Purge(if s.queue[n - 1].deadline <= now then Drop(s, n - 1, TimedOut(now)) else s, now, n - 1)
  }

  function Earliest(queue: seq<Waiter>): int
    requires queue != []
  {
    if |queue| == 1 then queue[0].deadline else Min(Earliest(queue[..|queue| - 1]), queue[|queue| - 1].deadline)
  }

  function Begin(cfg: Config, s: State, now: int): State
    requires s.queue != []
  {
    var w := s.queue[0];
    s.(queue := Without(s.queue, 0), nextStartAt := now + cfg.interval, outcome := s.outcome[w.id := Started],
       trace := s.trace + [Begun(w.id, now, w.deadline)])
  }

  /** What pump does with the head of the queue. */
  datatype Verdict = Cancel | Expire | Wait(startAt: int) | Go

  function Judge(s: State, now: int): Verdict
    requires s.queue != []
  {
    var startAt := Max(now, Max(s.nextStartAt, s.cooldownUntil));
    if s.queue[0].aborted then Cancel
    else if startAt >= s.queue[0].deadline then Expire
    else if startAt > now then Wait(startAt)
    else Go
  }

  /** The state after one look at the head, before any nested pump. */
  function Looked(cfg: Config, s: State, now: int): State
    requires s.queue != []
  {
    var r := s.(ticks := s.ticks + 1);
    match Judge(s, now)
    case Cancel => Drop(r, 0, Aborted)
    case Expire => Drop(r, 0, TimedOut(now))
    case Wait(startAt) => r.(timer := Some(Min(startAt, Earliest(s.queue))))
    case Go => Begin(cfg, r, now)
  }

  /**
   The second loop of pump. An aborted head runs its abort listener, which pumps too. The source may then overwrite the
   timer the nested pump has set without clearing it; that orphan still fires, which is one more TimerFires input, and
   those may come at any moment here.
   */
  function Loop(cfg: Config, clock: Clock, s: State): (t: State)
    ensures |t.queue| <= |s.queue|
    decreases |s.queue|, 0
  {
    if s.queue == [] then s
    else
      var now := clock(s.ticks);
      var t := Looked(cfg, s, now);
      match Judge(s, now)
      case Cancel => Loop(cfg, clock, Pump(cfg, clock, t))
      case Wait(_) => t
      case _ => Loop(cfg, clock, t)
  }

  function Pump(cfg: Config, clock: Clock, s: State): (t: State)
    ensures |t.queue| <= |s.queue|
    decreases |s.queue|, 1
  {
    Loop(cfg, clock, Purge(s.(timer := None, ticks := s.ticks + 1), clock(s.ticks), |s.queue|))
  }

  // ----- the calls -----

  function Settle(s: State, id: nat, code: Code): State { s.(outcome := s.outcome[id := Rejected(code)], trace := s.trace + [Turned(id, code)]) }

  function Noted(s: State, e: Event): State { s.(trace := s.trace + [e]) }

  function Joined(s: State, deadline: int): State
  {
    Noted(s.(calls := s.calls + 1, queue := s.queue + [Waiter(s.calls, deadline, false)]), Queued(s.calls, deadline))
  }

  /** `late` is a signal aborted after the first look at it. */
  function Acquire(cfg: Config, clock: Clock, s: State, deadline: int, aborted: bool, late: bool): State
  {
    var r := s.(calls := s.calls + 1);
    if s.closed then Settle(r, s.calls, BackoffInvalid)
    else if aborted then Settle(Noted(r, Signalled(s.calls)), s.calls, Aborted)
    else if |s.queue| >= cfg.maxQueue then Settle(r, s.calls, QueueFull)
    else if late then Pump(cfg, clock, Settle(Noted(r, Signalled(s.calls)), s.calls, Aborted))
    else Pump(cfg, clock, Joined(s, deadline))
  }

  function DropAll(s: State, n: nat): State
    requires n <= |s.queue|
    decreases n
  {
    if n == 0 then s else DropAll(Drop(s, 0, BackoffInvalid), n - 1)
  }

  function FailClosed(s: State): State
  {
    DropAll(s.(closed := true, timer := None, trace := s.trace + [Closed]), |s.queue|)
  }

  function ApplyCooldown(cfg: Config, clock: Clock, s: State, milliseconds: int): State
  {
    if milliseconds <= 0 || milliseconds > MAX_TIMER_DELAY_MS then FailClosed(s)
    else
      var until := clock(s.ticks) + milliseconds;
      Pump(cfg, clock, s.(ticks := s.ticks + 1, cooldownUntil := Max(s.cooldownUntil, until), trace := s.trace + [Cooled(until)]))
  }

  function IndexOf(queue: seq<Waiter>, id: nat): (i: nat)
    ensures i <= |queue| && (i < |queue| ==> queue[i].id == id)
  {
    if queue == [] then 0 else if queue[0].id == id then 0 else 1 + IndexOf(queue[1..], id)
  }

  /** The caller's signal is set; its listener is yet to run. */
  function MarkAborted(s: State, id: nat): State
  {
    var i := IndexOf(s.queue, id);
    if i == |s.queue| then s else Noted(s.(queue := s.queue[i := s.queue[i].(aborted := true)]), Signalled(id))
  }

  /** The signal is set and the abort listener of the request runs; once settled it has none. */
  function Abort(cfg: Config, clock: Clock, s: State, id: nat): State
  {
    var i := IndexOf(s.queue, id);
    if i == |s.queue| then s else Pump(cfg, clock, Drop(MarkAborted(s, id), i, Aborted))
  }

  datatype Input =
    | AcquireCall(deadline: int, aborted: bool, late: bool)
    | SignalSet(id: nat)
    | AbortListener(id: nat)
    | CooldownCall(milliseconds: int)
    | TimerFires
    | FailClosedCall

  function Apply(cfg: Config, clock: Clock, s: State, x: Input): State
  {
    match x
    case AcquireCall(deadline, aborted, late) => Acquire(cfg, clock, s, deadline, aborted, late)
    case SignalSet(id) => MarkAborted(s, id)
    case AbortListener(id) => Abort(cfg, clock, s, id)
    case CooldownCall(milliseconds) => ApplyCooldown(cfg, clock, s, milliseconds)
    case TimerFires => Pump(cfg, clock, s)
    case FailClosedCall => FailClosed(s)
  }

  function Run(cfg: Config, clock: Clock, s: State, inputs: seq<Input>): State
    decreases |inputs|
  {
    if inputs == [] then s else Run(cfg, clock, Apply(cfg, clock, s, inputs[0]), inputs[1..])
  }

  // ----- invariants -----

  /** What an earlier event means for a later start. */
  predicate Follows(cfg: Config, early: Event, late: Event)
  {
    late.Begun? ==>
      match early
      case Begun(id, at, _) => id < late.id && at + cfg.interval <= late.at
      case Cooled(until) => until <= late.at
      case Closed => false
      case Signalled(id) => id != late.id
      case _ => true
  }

  ghost predicate TraceOk(cfg: Config, trace: seq<Event>)
  {
    && (forall i, j | 0 <= i < j < |trace| :: Follows(cfg, trace[i], trace[j]))
    && (forall i | 0 <= i < |trace| && trace[i].Begun? :: trace[i].at < trace[i].deadline)
  }

  /** What the scheduler remembers of an event. */
  predicate Covered(cfg: Config, s: State, e: Event)
  {
    match e
    case Begun(id, at, _) => at + cfg.interval <= s.nextStartAt && id in s.outcome && s.outcome[id].Started?
                             && (s.queue != [] ==> id < s.queue[0].id)
    case Cooled(until) => until <= s.cooldownUntil
    case Closed => s.closed
    case Refused(id, code) => id in s.outcome && s.outcome[id] == Rejected(code)
    case Turned(id, code) => id in s.outcome && s.outcome[id] == Rejected(code)
    case Queued(id, _) => id < s.calls
    case Signalled(id) => id < s.calls && forall w | w in s.queue && w.id == id :: w.aborted
  }

  ghost predicate Sorted(queue: seq<Waiter>)
  {
    forall i, j | 0 <= i < j < |queue| :: queue[i].id < queue[j].id
  }

  function Ids(queue: seq<Waiter>): set<nat>
  {
    set w | w in queue :: w.id
  }

  function Known(s: State): set<nat> { s.outcome.Keys + Ids(s.queue) }

  /** Requests wait in the order of their calls, and each call is either waiting or settled. */
  ghost predicate QueueOk(s: State)
  {
    Sorted(s.queue) && Ids(s.queue) !! s.outcome.Keys && forall id: nat :: id < s.calls <==> id in Known(s)
  }

  ghost predicate CoveredAt(cfg: Config, s: State, k: int)
  {
    0 <= k < |s.trace| ==> Covered(cfg, s, s.trace[k])
  }

  ghost predicate AllCovered(cfg: Config, s: State)
  {
    forall k :: CoveredAt(cfg, s, k)
  }

  ghost predicate Sound(cfg: Config, s: State)
  {
    TraceOk(cfg, s.trace) && AllCovered(cfg, s) && QueueOk(s)
  }

  lemma TraceSnoc(cfg: Config, trace: seq<Event>, e: Event)
    requires TraceOk(cfg, trace) && (forall k | 0 <= k < |trace| :: Follows(cfg, trace[k], e)) && (e.Begun? ==> e.at < e.deadline)
    ensures TraceOk(cfg, trace + [e])
  {
  }

  ghost predicate Core(cfg: Config, s: State)
  {
    Sound(cfg, s) && (s.closed ==> s.queue == [])
  }

  /** A waiting request has a wake-up, no later than any deadline and no later than the head may start. */
  ghost predicate WakeOk(s: State)
  {
    s.queue != [] ==>
      && s.timer.Some?
      && (forall w | w in s.queue :: s.timer.value <= w.deadline)
      && s.timer.value <= Max(s.nextStartAt, s.cooldownUntil)
  }

  lemma WithoutSpec(queue: seq<Waiter>, i: nat)
    requires i < |queue| && Sorted(queue)
    ensures var rest := Without(queue, i);
      Sorted(rest) && Ids(rest) == Ids(queue) - {queue[i].id} && forall w | w in rest :: w in queue
  {
    var rest := Without(queue, i);
    forall id | id in Ids(queue) && id != queue[i].id ensures id in Ids(rest) {
      var k :| 0 <= k < |queue| && queue[k].id == id;
      if k < i { assert rest[k] == queue[k]; } else { assert rest[k - 1] == queue[k]; }
    }
  }

  lemma DropQueueOk(s: State, i: nat, code: Code)
    requires QueueOk(s) && i < |s.queue|
    ensures QueueOk(Drop(s, i, code)) && s.queue[i].id !in s.outcome
  {
    WithoutSpec(s.queue, i);
    assert s.queue[i] in s.queue && s.queue[i].id in Ids(s.queue);
    assert Known(Drop(s, i, code)) == Known(s);
  }

  lemma DropCovers(cfg: Config, s: State, i: nat, code: Code, e: Event)
    requires QueueOk(s) && i < |s.queue| && s.queue[i].id !in s.outcome && Covered(cfg, s, e)
    ensures Covered(cfg, Drop(s, i, code), e)
  {
    WithoutSpec(s.queue, i);
  }

  lemma DropSound(cfg: Config, s: State, i: nat, code: Code)
    requires Sound(cfg, s) && i < |s.queue|
    ensures Sound(cfg, Drop(s, i, code))
  {
    var t := Drop(s, i, code);
    DropQueueOk(s, i, code);
    TraceSnoc(cfg, s.trace, Refused(s.queue[i].id, code));
    forall k ensures CoveredAt(cfg, t, k) {
      assert CoveredAt(cfg, s, k);
      if 0 <= k < |s.trace| { DropCovers(cfg, s, i, code, s.trace[k]); }
    }
  }

  lemma DropKeeps(cfg: Config, s: State, i: nat, code: Code)
    requires Core(cfg, s) && i < |s.queue|
    ensures Core(cfg, Drop(s, i, code))
  {
    DropSound(cfg, s, i, code);
  }

  lemma BeginKeeps(cfg: Config, s: State, now: int)
    requires Core(cfg, s) && s.queue != []
    requires s.nextStartAt <= now && s.cooldownUntil <= now && now < s.queue[0].deadline && !s.queue[0].aborted
    ensures Core(cfg, Begin(cfg, s, now))
  {
    var t, w := Begin(cfg, s, now), s.queue[0];
    var e := Begun(w.id, now, w.deadline);
    WithoutSpec(s.queue, 0);
    assert w in s.queue && w.id in Ids(s.queue);
    assert Known(t) == Known(s);
    forall k | 0 <= k < |s.trace| ensures Follows(cfg, s.trace[k], e) { assert CoveredAt(cfg, s, k); }
    TraceSnoc(cfg, s.trace, e);
    forall k ensures CoveredAt(cfg, t, k) {
      assert CoveredAt(cfg, s, k);
    }
  }

  lemma {:induction false} PurgeKeeps(cfg: Config, s: State, now: int, n: nat)
    requires Core(cfg, s) && n <= |s.queue|
    ensures Core(cfg, Purge(s, now, n))
    decreases n
  {
    if n > 0 {
      if s.queue[n - 1].deadline <= now { DropKeeps(cfg, s, n - 1, TimedOut(now)); }
      PurgeKeeps(cfg, if s.queue[n - 1].deadline <= now then Drop(s, n - 1, TimedOut(now)) else s, now, n - 1);
    }
  }

  lemma {:induction false} EarliestSpec(queue: seq<Waiter>)
    requires queue != []
    ensures forall w | w in queue :: Earliest(queue) <= w.deadline
  {
    if |queue| > 1 {
      var init := queue[..|queue| - 1];
      EarliestSpec(init);
      forall w | w in queue ensures Earliest(queue) <= w.deadline {
        assert w in init || w == queue[|queue| - 1];
      }
    }
  }

  /** Core does not look at the clock or the timer. */
  lemma TickKeeps(cfg: Config, s: State, t: State)
    requires Core(cfg, s) && t == s.(ticks := t.ticks, timer := t.timer)
    ensures Core(cfg, t)
  {
    forall k ensures CoveredAt(cfg, t, k) { assert CoveredAt(cfg, s, k); }
    assert Known(t) == Known(s);
  }

  lemma LookKeeps(cfg: Config, s: State, now: int)
    requires Core(cfg, s) && s.queue != []
    ensures Core(cfg, Looked(cfg, s, now))
  {
    var r := s.(ticks := s.ticks + 1);
    TickKeeps(cfg, s, r);
    match Judge(s, now)
    case Cancel => DropKeeps(cfg, r, 0, Aborted);
    case Expire => DropKeeps(cfg, r, 0, TimedOut(now));
    case Wait(_) => TickKeeps(cfg, s, Looked(cfg, s, now));
    case Go => BeginKeeps(cfg, r, now);
  }

  lemma {:induction false} LoopKeeps(cfg: Config, clock: Clock, s: State)
    requires Core(cfg, s)
    ensures Core(cfg, Loop(cfg, clock, s))
    decreases |s.queue|, 0
  {
    if s.queue != [] {
      var now := clock(s.ticks);
      var t := Looked(cfg, s, now);
      LookKeeps(cfg, s, now);
      match Judge(s, now)
      case Cancel =>
        PumpKeeps(cfg, clock, t);
        LoopKeeps(cfg, clock, Pump(cfg, clock, t));
      case Wait(_) =>
      case _ => LoopKeeps(cfg, clock, t);
    }
  }

  lemma {:induction false} PumpKeeps(cfg: Config, clock: Clock, s: State)
    requires Core(cfg, s)
    ensures Core(cfg, Pump(cfg, clock, s))
    decreases |s.queue|, 1
  {
    var r := s.(timer := None, ticks := s.ticks + 1);
    TickKeeps(cfg, s, r);
    PurgeKeeps(cfg, r, clock(s.ticks), |s.queue|);
    LoopKeeps(cfg, clock, Purge(r, clock(s.ticks), |s.queue|));
  }

  lemma {:induction false} LoopWakes(cfg: Config, clock: Clock, s: State)
    ensures WakeOk(Loop(cfg, clock, s))
    decreases |s.queue|
  {
    if s.queue != [] {
      var now := clock(s.ticks);
      var t := Looked(cfg, s, now);
      match Judge(s, now)
      case Cancel => LoopWakes(cfg, clock, Pump(cfg, clock, t));
      case Wait(_) => EarliestSpec(s.queue);
      case _ => LoopWakes(cfg, clock, t);
    }
  }

  lemma PumpWakes(cfg: Config, clock: Clock, s: State)
    ensures WakeOk(Pump(cfg, clock, s))
  {
    LoopWakes(cfg, clock, Purge(s.(timer := None, ticks := s.ticks + 1), clock(s.ticks), |s.queue|));
  }

  lemma PumpOk(cfg: Config, clock: Clock, s: State)
    requires Core(cfg, s) && |s.queue| <= cfg.maxQueue
    ensures Inv(cfg, Pump(cfg, clock, s))
  {
    PumpKeeps(cfg, clock, s);
    PumpWakes(cfg, clock, s);
  }

  ghost predicate Inv(cfg: Config, s: State)
  {
    Core(cfg, s) && WakeOk(s) && |s.queue| <= cfg.maxQueue
  }

  lemma SettleKeeps(cfg: Config, s: State, code: Code)
    requires Core(cfg, s)
    ensures Core(cfg, Settle(s.(calls := s.calls + 1), s.calls, code))
  {
    var t := Settle(s.(calls := s.calls + 1), s.calls, code);
    assert s.calls !in Known(s);
    assert Known(t) == Known(s) + {s.calls};
    forall k ensures CoveredAt(cfg, t, k) {
      assert CoveredAt(cfg, s, k);
    }
  }

  lemma QueueSnoc(queue: seq<Waiter>, w: Waiter)
    requires Sorted(queue) && forall x | x in queue :: x.id < w.id
    ensures Sorted(queue + [w]) && Ids(queue + [w]) == Ids(queue) + {w.id}
  {
    var longer := queue + [w];
    assert w in longer && forall x | x in queue :: x in longer;
    forall i, j | 0 <= i < j < |longer| ensures longer[i].id < longer[j].id {
      assert longer[i] in queue;
    }
  }

  lemma JoinQueueOk(s: State, deadline: int)
    requires QueueOk(s)
    ensures QueueOk(Joined(s, deadline)) && s.calls !in Known(s)
  {
    var t := Joined(s, deadline);
    assert s.calls !in Known(s);
    forall x | x in s.queue ensures x.id < s.calls { assert x.id in Ids(s.queue) && x.id in Known(s); }
    QueueSnoc(s.queue, Waiter(s.calls, deadline, false));
    assert Known(t) == Known(s) + {s.calls};
  }

  /** The signal is set before the call is queued. */
  lemma AbortedAtDoorKeeps(cfg: Config, s: State)
    requires Core(cfg, s)
    ensures Core(cfg, Settle(Noted(s.(calls := s.calls + 1), Signalled(s.calls)), s.calls, Aborted))
  {
    var t := Settle(Noted(s.(calls := s.calls + 1), Signalled(s.calls)), s.calls, Aborted);
    assert s.calls !in Known(s);
    assert Known(t) == Known(s) + {s.calls};
    forall w | w in s.queue ensures w.id != s.calls { assert w.id in Known(s); }
    forall k ensures CoveredAt(cfg, t, k) {
      assert CoveredAt(cfg, s, k);
    }
  }

  lemma JoinCovers(cfg: Config, s: State, deadline: int, e: Event)
    requires QueueOk(s) && Covered(cfg, s, e)
    ensures Covered(cfg, Joined(s, deadline), e)
  {
    if e.Begun? { assert e.id in Known(s); }
  }

  lemma JoinKeeps(cfg: Config, s: State, deadline: int)
    requires Core(cfg, s) && !s.closed
    ensures Core(cfg, Joined(s, deadline))
  {
    var t := Joined(s, deadline);
    JoinQueueOk(s, deadline);
    TraceSnoc(cfg, s.trace, Queued(s.calls, deadline));
    forall k ensures CoveredAt(cfg, t, k) {
      assert CoveredAt(cfg, s, k);
      if 0 <= k < |s.trace| { JoinCovers(cfg, s, deadline, s.trace[k]); }
    }
  }

  lemma AcquireKeeps(cfg: Config, clock: Clock, s: State, deadline: int, aborted: bool, late: bool)
    requires Inv(cfg, s)
    ensures Inv(cfg, Acquire(cfg, clock, s, deadline, aborted, late))
  {
    if s.closed { SettleKeeps(cfg, s, BackoffInvalid); }
    else if aborted { AbortedAtDoorKeeps(cfg, s); }
    else if |s.queue| >= cfg.maxQueue { SettleKeeps(cfg, s, QueueFull); }
    else if late {
      AbortedAtDoorKeeps(cfg, s);
      PumpOk(cfg, clock, Settle(Noted(s.(calls := s.calls + 1), Signalled(s.calls)), s.calls, Aborted));
    } else {
      JoinKeeps(cfg, s, deadline);
      PumpOk(cfg, clock, Joined(s, deadline));
    }
  }

  lemma {:induction false} DropAllSound(cfg: Config, s: State, n: nat)
    requires Sound(cfg, s) && n <= |s.queue|
    ensures Sound(cfg, DropAll(s, n)) && |DropAll(s, n).queue| == |s.queue| - n && DropAll(s, n).closed == s.closed
    decreases n
  {
    if n > 0 {
      DropSound(cfg, s, 0, BackoffInvalid);
      DropAllSound(cfg, Drop(s, 0, BackoffInvalid), n - 1);
    }
  }

  /** An event that is no start and that the scheduler remembers. */
  lemma NoteSound(cfg: Config, s: State, t: State, e: Event)
    requires Sound(cfg, s) && !e.Begun? && Covered(cfg, t, e)
    requires t == s.(closed := t.closed, timer := t.timer, ticks := t.ticks, cooldownUntil := t.cooldownUntil, trace := s.trace + [e])
    requires s.cooldownUntil <= t.cooldownUntil && (s.closed ==> t.closed)
    ensures Sound(cfg, t)
  {
    assert Known(t) == Known(s);
    forall k ensures CoveredAt(cfg, t, k) {
      assert CoveredAt(cfg, s, k);
    }
  }

  lemma NoteKeeps(cfg: Config, s: State, t: State, e: Event)
    requires Core(cfg, s) && !e.Begun? && Covered(cfg, t, e)
    requires t == s.(ticks := t.ticks, cooldownUntil := t.cooldownUntil, trace := s.trace + [e]) && s.cooldownUntil <= t.cooldownUntil
    ensures Core(cfg, t)
  {
    NoteSound(cfg, s, t, e);
  }

  lemma FailClosedKeeps(cfg: Config, s: State)
    requires Inv(cfg, s)
    ensures Inv(cfg, FailClosed(s)) && FailClosed(s).closed
  {
    var t := s.(closed := true, timer := None, trace := s.trace + [Closed]);
    NoteSound(cfg, s, t, Closed);
    DropAllSound(cfg, t, |s.queue|);
  }

  lemma CooldownKeeps(cfg: Config, clock: Clock, s: State, milliseconds: int)
    requires Inv(cfg, s)
    ensures Inv(cfg, ApplyCooldown(cfg, clock, s, milliseconds))
  {
    if milliseconds <= 0 || milliseconds > MAX_TIMER_DELAY_MS {
      FailClosedKeeps(cfg, s);
    } else {
      var until := clock(s.ticks) + milliseconds;
      var t := s.(ticks := s.ticks + 1, cooldownUntil := Max(s.cooldownUntil, until), trace := s.trace + [Cooled(until)]);
      NoteKeeps(cfg, s, t, Cooled(until));
      PumpOk(cfg, clock, t);
    }
  }

  lemma MarkedQueue(queue: seq<Waiter>, i: nat)
    requires Sorted(queue) && i < |queue|
    ensures var marked := queue[i := queue[i].(aborted := true)];
      && Sorted(marked) && Ids(marked) == Ids(queue) && marked[0].id == queue[0].id
      && (forall x | x in marked :: (x.id != queue[i].id && x in queue) || x == queue[i].(aborted := true))
  {
    var marked := queue[i := queue[i].(aborted := true)];
    assert forall k | 0 <= k < |queue| :: marked[k].id == queue[k].id;
    forall x | x in queue ensures x.id in Ids(marked) {
      var k :| 0 <= k < |queue| && queue[k] == x;
      assert marked[k] in marked;
    }
    forall x | x in marked ensures x.id in Ids(queue) && ((x.id != queue[i].id && x in queue) || x == queue[i].(aborted := true)) {
      var k :| 0 <= k < |marked| && marked[k] == x;
      assert queue[k] in queue;
    }
  }

  lemma MarkKeeps(cfg: Config, s: State, id: nat)
    requires Core(cfg, s)
    ensures Core(cfg, MarkAborted(s, id)) && |MarkAborted(s, id).queue| == |s.queue| && (WakeOk(s) ==> WakeOk(MarkAborted(s, id)))
  {
    var i, t := IndexOf(s.queue, id), MarkAborted(s, id);
    if i < |s.queue| {
      MarkedQueue(s.queue, i);
      assert s.queue[i] in s.queue && id in Ids(s.queue) && id in Known(s);
      assert Known(t) == Known(s);
      TraceSnoc(cfg, s.trace, Signalled(id));
      forall k ensures CoveredAt(cfg, t, k) {
        assert CoveredAt(cfg, s, k);
      }
    }
  }

  lemma ApplyKeeps(cfg: Config, clock: Clock, s: State, x: Input)
    requires Inv(cfg, s)
    ensures Inv(cfg, Apply(cfg, clock, s, x))
  {
    match x
    case AcquireCall(deadline, aborted, late) => AcquireKeeps(cfg, clock, s, deadline, aborted, late);
    case SignalSet(id) => MarkKeeps(cfg, s, id);
    case AbortListener(id) =>
      var i := IndexOf(s.queue, id);
      if i < |s.queue| {
        MarkKeeps(cfg, s, id);
        DropKeeps(cfg, MarkAborted(s, id), i, Aborted);
        PumpOk(cfg, clock, Drop(MarkAborted(s, id), i, Aborted));
      }
    case CooldownCall(milliseconds) => CooldownKeeps(cfg, clock, s, milliseconds);
    case TimerFires => PumpOk(cfg, clock, s);
    case FailClosedCall => FailClosedKeeps(cfg, s);
  }

  lemma {:induction false} RunKeeps(cfg: Config, clock: Clock, s: State, inputs: seq<Input>)
    requires Inv(cfg, s)
    ensures Inv(cfg, Run(cfg, clock, s, inputs))
    decreases |inputs|
  {
    if inputs != [] {
      ApplyKeeps(cfg, clock, s, inputs[0]);
      RunKeeps(cfg, clock, Apply(cfg, clock, s, inputs[0]), inputs[1..]);
    }
  }

  /**
   For every sequence of calls, aborts, cooldowns and timer firings, at whatever clock readings: starts are at least
   the interval apart and in the order of their calls, none is inside a cooldown or after the closing, each is
   strictly before its deadline; the queue stays within its bound; every call is waiting or settled, never both;
   and a waiting request always has a wake-up, no later than any deadline or than the head may start.
   */
  lemma SchedulerIsSafe(cfg: Config, clock: Clock, inputs: seq<Input>)
    ensures var s := Run(cfg, clock, Fresh(), inputs);
      TraceOk(cfg, s.trace) && |s.queue| <= cfg.maxQueue && QueueOk(s) && WakeOk(s)
  {
    assert Known(Fresh()) == {};
    RunKeeps(cfg, clock, Fresh(), inputs);
  }

  // ----- expiry -----

  lemma {:induction false} PurgeSpec(s: State, now: int, n: nat)
    requires n <= |s.queue| && forall i | n <= i < |s.queue| :: s.queue[i].deadline > now
    ensures forall w | w in Purge(s, now, n).queue :: w.deadline > now && w in s.queue
    decreases n
  {
    if n > 0 {
      var t := if s.queue[n - 1].deadline <= now then Drop(s, n - 1, TimedOut(now)) else s;
      PurgeSpec(t, now, n - 1);
    }
  }

  lemma {:induction false} LoopShrinks(cfg: Config, clock: Clock, s: State, w: Waiter)
    requires w in Loop(cfg, clock, s).queue
    ensures w in s.queue
    decreases |s.queue|, 0
  {
    if s.queue != [] {
      var now := clock(s.ticks);
      var t := Looked(cfg, s, now);
      match Judge(s, now)
      case Cancel =>
        LoopShrinks(cfg, clock, Pump(cfg, clock, t), w);
        PumpShrinks(cfg, clock, t, w);
      case Wait(_) =>
      case _ => LoopShrinks(cfg, clock, t, w);
    }
  }

  /** A pump leaves no request waiting whose deadline its first clock reading has reached, and adds none. */
  lemma {:induction false} PumpShrinks(cfg: Config, clock: Clock, s: State, w: Waiter)
    requires w in Pump(cfg, clock, s).queue
    ensures w in s.queue && w.deadline > clock(s.ticks)
    decreases |s.queue|, 1
  {
    var r := s.(timer := None, ticks := s.ticks + 1);
    LoopShrinks(cfg, clock, Purge(r, clock(s.ticks), |s.queue|), w);
    PurgeSpec(r, clock(s.ticks), |s.queue|);
  }

  /** At the last clock reading the head was too early, though not too late to wait. */
  predicate Blocked(clock: Clock, s: State)
  {
    s.queue != [] ==>
      && s.ticks > 0 && !s.queue[0].aborted
      && clock(s.ticks - 1) < Max(s.nextStartAt, s.cooldownUntil) < s.queue[0].deadline
  }

  lemma {:induction false} LoopStops(cfg: Config, clock: Clock, s: State)
    ensures Blocked(clock, Loop(cfg, clock, s))
    decreases |s.queue|
  {
    if s.queue != [] {
      var now := clock(s.ticks);
      var t := Looked(cfg, s, now);
      match Judge(s, now)
      case Cancel => LoopStops(cfg, clock, Pump(cfg, clock, t));
      case Wait(_) =>
      case _ => LoopStops(cfg, clock, t);
    }
  }

  /** A pump keeps nobody waiting who could start: it stops only at an empty queue or a head that is too early. */
  lemma PumpStartsAllItCan(cfg: Config, clock: Clock, s: State)
    ensures Blocked(clock, Pump(cfg, clock, s))
  {
    LoopStops(cfg, clock, Purge(s.(timer := None, ticks := s.ticks + 1), clock(s.ticks), |s.queue|));
  }
}
