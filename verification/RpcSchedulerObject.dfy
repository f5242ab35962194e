/** RpcStartScheduler as the object it is: fields changed in place by the calls and by pump's two loops. */
module RpcSchedulerObject {
  import opened Prelude
  import opened RpcScheduler

  class RpcStartScheduler {
    const cfg: Config
    const clock: Clock
    var queue: seq<Waiter>
    var timer: Option<int>
    var nextStartAt: int
    var cooldownUntil: int
    var closed: bool
    var ticks: nat
    var calls: nat
    var outcome: map<nat, Outcome>
    ghost var trace: seq<Event>

    ghost function View(): State
      reads this
    {
      State(queue, timer, nextStartAt, cooldownUntil, closed, ticks, calls, outcome, trace)
    }

    constructor (cfg: Config, clock: Clock)
      ensures View() == Fresh() && this.cfg == cfg && this.clock == clock
    {
      this.cfg, this.clock := cfg, clock;
      queue, timer, nextStartAt, cooldownUntil, closed := [], None, 0, 0, false;
      ticks, calls, outcome, trace := 0, 0, map[], [];
    }

    /** Date.now() */
    method Now() returns (now: int)
      modifies this`ticks
      ensures now == clock(old(ticks)) && ticks == old(ticks) + 1
    {
      now := clock(ticks);
      ticks := ticks + 1;
    }

    /** Takes a waiter out of the queue and rejects it. */
    method Reject(i: nat, code: Code)
      requires i < |queue|
      modifies this`queue, this`outcome, this`trace
      ensures View() == Drop(old(View()), i, code)
    {
      outcome := outcome[queue[i].id := Rejected(code)];
      trace := trace + [Refused(queue[i].id, code)];
      queue := queue[..i] + queue[i + 1..];
    }

    /** The first loop of pump. */
    method RejectExpired(now: int)
      modifies this`queue, this`outcome, this`trace
      ensures View() == Purge(old(View()), now, |old(queue)|)
    {
      var index := |queue| - 1;
      while index >= 0
        invariant -1 <= index < |queue|
        invariant View() == old(View()).(queue := queue, outcome := outcome, trace := trace)
        invariant Purge(View(), now, index + 1) == Purge(old(View()), now, |old(queue)|)
      {
        if queue[index].deadline <= now { Reject(index, TimedOut(now)); }
        index := index - 1;
      }
    }

    /** Math.min over the queued deadlines. */
    method EarliestDeadline() returns (earliest: int)
      requires queue != []
      ensures earliest == Earliest(queue)
    {
      earliest := queue[0].deadline;
      var i := 1;
      while i < |queue|
        invariant 1 <= i <= |queue| && earliest == Earliest(queue[..i])
      {
        assert queue[..i + 1][..i] == queue[..i];
        earliest := Min(earliest, queue[i].deadline);
        i := i + 1;
      }
      assert queue[..i] == queue;
    }

    /** The head leaves the queue and starts. */
    method StartHead(now: int)
      requires queue != []
      modifies this`queue, this`nextStartAt, this`outcome, this`trace
      ensures View() == Begin(cfg, old(View()), now)
    {
      var waiter := queue[0];
      queue := queue[..0] + queue[1..];
      nextStartAt := now + cfg.interval;
      outcome := outcome[waiter.id := Started];
      trace := trace + [Begun(waiter.id, now, waiter.deadline)];
    }

    /** One turn of pump's second loop; `stop` when the head must wait for the timer. */
    method Turn() returns (stop: bool)
      requires queue != []
      modifies this
      ensures Loop(cfg, clock, old(View())) == if stop then View() else Loop(cfg, clock, View())
      ensures if stop then |queue| <= |old(queue)| else |queue| < |old(queue)|
      decreases |queue|, 1
    {
      var waiter := queue[0];
      var now := Now();
      if waiter.aborted {
        RunAbort(0);
        return false;
      }
      var startAt := Max(now, Max(nextStartAt, cooldownUntil));
      if startAt >= waiter.deadline {
        Reject(0, TimedOut(now));
        return false;
      }
      if startAt > now {
        var earliest := EarliestDeadline();
        timer := Some(Min(startAt, earliest));
        return true;
      }
      StartHead(now);
      return false;
    }

    /** The second loop of pump. */
    method StartWaiting()
      modifies this
      ensures View() == Loop(cfg, clock, old(View()))
      decreases |queue|, 2
    {
      var stop := false;
      while queue != [] && !stop
        invariant |queue| <= |old(queue)|
        invariant Loop(cfg, clock, old(View())) == if stop then View() else Loop(cfg, clock, View())
        decreases |queue|, !stop
      {
        stop := Turn();
      }
    }

    /** The timer is cleared and expired waiters are rejected. */
    method Clear()
      modifies this
      ensures View() == Purge(old(View()).(timer := None, ticks := old(ticks) + 1), clock(old(ticks)), |old(queue)|)
    {
      timer := None;
      var currentTime := Now();
      RejectExpired(currentTime);
    }

    method Pump()
      modifies this
      ensures View() == RpcScheduler.Pump(cfg, clock, old(View()))
      decreases |queue|, 3
    {
      Clear();
      StartWaiting();
    }

    /** The abort listener of a queued waiter. */
    method RunAbort(i: nat)
      requires i < |queue|
      modifies this
      ensures View() == RpcScheduler.Pump(cfg, clock, Drop(old(View()), i, Aborted))
      decreases |queue|, 0
    {
      Reject(i, Aborted);
      Pump();
    }

    method Acquire(deadline: int, aborted: bool, late: bool)
      modifies this
      ensures View() == RpcScheduler.Acquire(cfg, clock, old(View()), deadline, aborted, late)
    {
      var id := calls;
      if closed { TurnAway(BackoffInvalid); return; }
      if aborted {
        trace := trace + [Signalled(id)];
        TurnAway(Aborted);
        return;
      }
      if |queue| >= cfg.maxQueue { TurnAway(QueueFull); return; }
      if late {
        trace := trace + [Signalled(id)];
        TurnAway(Aborted);
        Pump();
        return;
      }
      calls := calls + 1;
      queue := queue + [Waiter(id, deadline, false)];
      trace := trace + [Queued(id, deadline)];
      Pump();
    }

    /** The call is settled without being queued. */
    method TurnAway(code: Code)
      modifies this`calls, this`outcome, this`trace
      ensures View() == Settle(old(View()).(calls := old(calls) + 1), old(calls), code)
    {
      outcome := outcome[calls := Rejected(code)];
      trace := trace + [Turned(calls, code)];
      calls := calls + 1;
    }

    method FailClosed()
      modifies this
      ensures View() == RpcScheduler.FailClosed(old(View()))
    {
      closed := true;
      timer := None;
      trace := trace + [Closed];
      ghost var start := View();
      while queue != []
        invariant DropAll(View(), |queue|) == DropAll(start, |start.queue|)
        decreases |queue|
      {
        Reject(0, BackoffInvalid);
      }
    }

    method ApplyCooldown(milliseconds: int)
      modifies this
      ensures View() == RpcScheduler.ApplyCooldown(cfg, clock, old(View()), milliseconds)
    {
      if milliseconds <= 0 || milliseconds > MAX_TIMER_DELAY_MS {
        FailClosed();
        return;
      }
      var now := Now();
      cooldownUntil := Max(cooldownUntil, now + milliseconds);
      trace := trace + [Cooled(now + milliseconds)];
      Pump();
    }
  }
}
