/**
 Whole runs of the session ledger: any number of workers, each transaction a read, a clock reading and a swap.
 What the daily counters and the cooldown promise although both are pruned.
 */
module SessionQuotas {
  import opened Prelude
  import opened Counting
  import opened ClockedStore
  import opened SessionLedger
  import SessionMeter

  type History = seq<Commit<Op, Ledger>>

  function PerformOp(limits: Limits, op: Op, l: Ledger, now: int): Result<Ledger, Failure>
  {
    var t := Transaction(limits, l, op, now);
    if t.Ok? then Ok(t.value.ledger) else Err(t.error)
  }

  function Performer(limits: Limits): Perform<Op, Ledger, Failure>
  {
    (op, l, now) => PerformOp(limits, op, l, now)
  }

  /** The histories of all runs from an empty ledger. */
  ghost predicate History?(limits: Limits, h: History, clock: int)
  {
    Chain(Performer(limits), h, EmptyLedger(), clock)
  }

  /** The ledger just before commit k. */
  function Before(h: History, k: nat): Ledger
    requires k <= |h|
  {
    LastValue(h[..k], EmptyLedger())
  }

  /** Commit k created a sandbox. */
  predicate Creates(limits: Limits, h: History, k: nat)
    requires k < |h|
  {
    h[k].op.Reserve?
    && var t := Transaction(limits, Before(h, k), h[k].op, h[k].at);
       t.Ok? && t.value.created
  }

  function RevisionOf(l: Ledger): int { l.revision }

  lemma TransactionsBump(limits: Limits)
    ensures Raises(Performer(limits), RevisionOf)
  {
  }

  /**
   In every run commit k carries revision k + 1, no ledger is ever stored twice, and therefore swapping on a content
   etag is swapping on a version.
   */
  lemma LedgerContentSwapAgrees(limits: Limits, clock: int, steps: seq<Step<Op>>)
    ensures var s := Run(Performer(limits), Start(EmptyLedger(), clock), steps);
      && RunByContent(Performer(limits), Start(EmptyLedger(), clock), steps) == s
      && NeverRepeats(s.commits, EmptyLedger())
      && (forall k | 0 <= k < |s.commits| :: s.commits[k].value.revision == k + 1)
  {
    TransactionsBump(limits);
    ContentSwapAgrees(Performer(limits), EmptyLedger(), clock, steps, RevisionOf);
    CommitsAreOrdered(Performer(limits), EmptyLedger(), clock, steps);
    var h := Run(Performer(limits), Start(EmptyLedger(), clock), steps).commits;
    RankedNeverRepeats(Performer(limits), h, EmptyLedger(), clock, RevisionOf);
    forall k | 0 <= k < |h| ensures h[k].value.revision == k + 1 {
      RankCounts(Performer(limits), h, EmptyLedger(), clock, RevisionOf, k + 1);
    }
  }

  datatype Scope = Everyone | ByVisitor(visitor: string) | ByIp(ip: string)

  predicate Within(scope: Scope, op: Op)
    requires op.Reserve?
  {
    match scope
    case Everyone => true
    case ByVisitor(v) => op.visitor == v
    case ByIp(ip) => op.ip == ip
  }

  function LimitOf(limits: Limits, scope: Scope): nat
  {
    match scope
    case Everyone => limits.dailyGlobal
    case ByVisitor(_) => limits.dailyVisitor
    case ByIp(_) => limits.dailyIp
  }

  /** How many of the first n commits created a sandbox on a day, for everyone, one visitor or one address. */
  function CreatedOn(limits: Limits, h: History, n: nat, day: int, scope: Scope): nat
    requires n <= |h|
  {
    if n == 0 then 0
    else CreatedOn(limits, h, n - 1, day, scope)
         + if Creates(limits, h, n - 1) && Day(h[n - 1].at) == day && Within(scope, h[n - 1].op) then 1 else 0
  }

  function CountedBy(c: Counter, scope: Scope): nat
  {
    match scope
    case Everyone => c.global
    case ByVisitor(v) => Count(c.visitors, v)
    case ByIp(ip) => Count(c.ips, ip)
  }

  /** The counter of a day that has not been pruned counts exactly that day's creations. */
  ghost predicate DayExact(limits: Limits, h: History, n: nat, l: Ledger, day: int)
    requires n <= |h|
  {
    var c := CounterOn(l, day);
    && c.global == Sum(c.visitors) == Sum(c.ips)
    && forall scope :: CountedBy(c, scope) == CreatedOn(limits, h, n, day, scope)
  }

  ghost predicate WithinLimits(limits: Limits, h: History, n: nat)
    requires n <= |h|
  {
    forall day, scope :: CreatedOn(limits, h, n, day, scope) <= LimitOf(limits, scope)
  }

  ghost predicate NoneAfter(limits: Limits, h: History, n: nat, today: int)
    requires n <= |h|
  {
    forall day, scope | day > today :: CreatedOn(limits, h, n, day, scope) == 0
  }

  ghost predicate QuotasOk(limits: Limits, h: History, n: nat, today: int)
    requires n <= |h|
  {
    var l := Before(h, n);
    && WithinLimits(limits, h, n)
    && NoneAfter(limits, h, n, today)
    && forall day | day >= today - 2 :: DayExact(limits, h, n, l, day)
  }

  /** What a transaction does to the counter of a day still retained: only a creation on that day touches it. */
  lemma CounterStep(limits: Limits, l: Ledger, op: Op, now: int, day: int)
    requires Transaction(limits, l, op, now).Ok? && day >= Day(now) - 2
    ensures var t := Transaction(limits, l, op, now).value; var c, d := CounterOn(l, day), CounterOn(t.ledger, day);
      if t.created && Day(now) == day then
        op.Reserve? && d == Bumped(c, op.visitor, op.ip)
      else d == c
  {
  }

  lemma CreationWithinLimits(limits: Limits, l: Ledger, op: Op, now: int, scope: Scope)
    requires op.Reserve? && Transaction(limits, l, op, now).Ok? && Transaction(limits, l, op, now).value.created
    ensures Within(scope, op) ==> CountedBy(CounterOn(l, Day(now)), scope) < LimitOf(limits, scope)
  {
  }

  lemma CommitStep(limits: Limits, h: History, clock: int, k: nat)
    requires k < |h| && History?(limits, h, clock)
    ensures var t := Transaction(limits, Before(h, k), h[k].op, h[k].at);
      t.Ok? && t.value.ledger == Before(h, k + 1)
    ensures LastAt(h[..k], clock) <= h[k].at == LastAt(h[..k + 1], clock)
  {
    assert Linked(Performer(limits), h, EmptyLedger(), clock, k);
  }

  lemma BumpedCounts(c: Counter, op: Op)
    requires op.Reserve?
    ensures var d := Bumped(c, op.visitor, op.ip);
      && Sum(d.visitors) == Sum(c.visitors) + 1 && Sum(d.ips) == Sum(c.ips) + 1
      && forall scope :: CountedBy(d, scope) == CountedBy(c, scope) + if Within(scope, op) then 1 else 0
  {
    SumBump(c.visitors, op.visitor);
    SumBump(c.ips, op.ip);
  }

  lemma DayStep(limits: Limits, h: History, n: nat, clock: int, day: int)
    requires n < |h| && History?(limits, h, clock) && day >= Day(h[n].at) - 2
    requires DayExact(limits, h, n, Before(h, n), day)
    ensures DayExact(limits, h, n + 1, Before(h, n + 1), day)
  {
    var l, op, now := Before(h, n), h[n].op, h[n].at;
    CommitStep(limits, h, clock, n);
    CounterStep(limits, l, op, now, day);
    var c, d := CounterOn(l, day), CounterOn(Before(h, n + 1), day);
    if Creates(limits, h, n) && Day(now) == day { BumpedCounts(c, op); }
    forall scope ensures CountedBy(d, scope) == CreatedOn(limits, h, n + 1, day, scope) {
      assert CountedBy(c, scope) == CreatedOn(limits, h, n, day, scope);
    }
  }

  lemma {:induction false} QuotasHold(limits: Limits, h: History, clock: int, n: nat)
    requires n <= |h| && History?(limits, h, clock)
    ensures QuotasOk(limits, h, n, Day(LastAt(h[..n], clock)))
  {
    if n > 0 {
      var k := n - 1;
      QuotasHold(limits, h, clock, k);
      CommitStep(limits, h, clock, k);
      var today := Day(h[k].at);
      forall day | day >= today - 2 ensures DayExact(limits, h, n, Before(h, n), day) {
        DayStep(limits, h, k, clock, day);
      }
      forall day, scope
        ensures CreatedOn(limits, h, n, day, scope) <= LimitOf(limits, scope)
        ensures day > today ==> CreatedOn(limits, h, n, day, scope) == 0
      {
        assert CreatedOn(limits, h, k, day, scope) <= LimitOf(limits, scope);
        if Creates(limits, h, k) && day == today {
          assert DayExact(limits, h, k, Before(h, k), today);
          CreationWithinLimits(limits, Before(h, k), h[k].op, h[k].at, scope);
        }
      }
    }
  }

  lemma DaysPruned(limits: Limits, l: Ledger, op: Op, now: int)
    ensures var t := Transaction(limits, l, op, now);
      t.Ok? ==> forall d | d in t.value.ledger.daily :: d >= Day(now) - 2
  {
  }

  /** Only the last three days are kept. */
  lemma DaysKept(limits: Limits, h: History, clock: int)
    requires History?(limits, h, clock)
    ensures forall d | d in LastValue(h, EmptyLedger()).daily :: d >= Day(LastAt(h, clock)) - 2
  {
    if h != [] {
      var k := |h| - 1;
      CommitStep(limits, h, clock, k);
      assert h[..k + 1] == h;
      DaysPruned(limits, Before(h, k), h[k].op, h[k].at);
    }
  }

  lemma CountersExact(limits: Limits, h: History, clock: int, day: int)
    requires History?(limits, h, clock) && day in LastValue(h, EmptyLedger()).daily
    ensures DayExact(limits, h, |h|, LastValue(h, EmptyLedger()), day)
  {
    DaysKept(limits, h, clock);
    QuotasHold(limits, h, clock, |h|);
    assert h[..|h|] == h;
    assert DayExact(limits, h, |h|, Before(h, |h|), day);
  }

  /**
   In every run, on every day, no more sandboxes are created than the global, per-visitor and per-address limits
   allow, although counters are deleted after two days; and each counter kept counts its day exactly, its total
   splitting over visitors and over addresses.
   */
  lemma DailyLimitsHold(limits: Limits, clock: int, steps: seq<Step<Op>>)
    ensures var s := Run(Performer(limits), Start(EmptyLedger(), clock), steps);
      && WithinLimits(limits, s.commits, |s.commits|)
      && (forall day | day in s.value.daily :: DayExact(limits, s.commits, |s.commits|, s.value, day))
  {
    var s := Run(Performer(limits), Start(EmptyLedger(), clock), steps);
    CommitsAreOrdered(Performer(limits), EmptyLedger(), clock, steps);
    QuotasHold(limits, s.commits, clock, |s.commits|);
    forall day | day in s.value.daily ensures DayExact(limits, s.commits, |s.commits|, s.value, day) {
      CountersExact(limits, s.commits, clock, day);
    }
  }

  // ----- the creation cooldown -----

  /** Any two creations by one visitor are at least the cooldown apart. */
  ghost predicate CooldownKept(limits: Limits, h: History)
  {
    forall i, j | 0 <= i < j < |h| && Creates(limits, h, i) && Creates(limits, h, j) && h[i].op.visitor == h[j].op.visitor ::
      h[j].at - h[i].at >= limits.cooldown
  }

  /** A creation is still remembered, or a later one is, or it is past the retention. */
  ghost predicate Remembered(l: Ledger, now: int, visitor: string, at: int)
  {
    at <= now && ((visitor in l.lastCreated && l.lastCreated[visitor] >= at) || at <= now - RETENTION)
  }

  lemma RememberStep(limits: Limits, l: Ledger, op: Op, now: int, later: int, visitor: string, at: int)
    requires Remembered(l, now, visitor, at) && now <= later && Transaction(limits, l, op, later).Ok?
    ensures Remembered(Transaction(limits, l, op, later).value.ledger, later, visitor, at)
  {
  }

  lemma CreationRecorded(limits: Limits, l: Ledger, op: Op, now: int)
    requires op.Reserve? && Transaction(limits, l, op, now).Ok? && Transaction(limits, l, op, now).value.created
    ensures Remembered(Transaction(limits, l, op, now).value.ledger, now, op.visitor, now)
  {
  }

  lemma CreationRemembered(limits: Limits, h: History, clock: int, k: nat)
    requires k < |h| && History?(limits, h, clock) && Creates(limits, h, k)
    ensures Remembered(Before(h, k + 1), LastAt(h[..k + 1], clock), h[k].op.visitor, h[k].at)
  {
    CommitStep(limits, h, clock, k);
    CreationRecorded(limits, Before(h, k), h[k].op, h[k].at);
  }

  lemma {:induction false} StaysRemembered(limits: Limits, h: History, clock: int, visitor: string, at: int, k: nat, n: nat)
    requires k <= n <= |h| && History?(limits, h, clock)
    requires Remembered(Before(h, k), LastAt(h[..k], clock), visitor, at)
    ensures Remembered(Before(h, n), LastAt(h[..n], clock), visitor, at)
    decreases n - k
  {
    if k < n {
      CommitStep(limits, h, clock, k);
      RememberStep(limits, Before(h, k), h[k].op, LastAt(h[..k], clock), h[k].at, visitor, at);
      StaysRemembered(limits, h, clock, visitor, at, k + 1, n);
    }
  }

  lemma CreationWaits(limits: Limits, l: Ledger, op: Op, now: int, later: int, at: int)
    requires op.Reserve? && Transaction(limits, l, op, later).Ok? && Transaction(limits, l, op, later).value.created
    requires Remembered(l, now, op.visitor, at) && now <= later && limits.cooldown <= RETENTION
    ensures later - at >= limits.cooldown
  {
    RememberStep(limits, l, op, now, later, op.visitor, at);
    var n := Normalize(l, later);
    assert op.visitor in n.lastCreated ==> op.visitor in l.lastCreated && n.lastCreated[op.visitor] == l.lastCreated[op.visitor];
  }

  lemma ShortCooldownKept(limits: Limits, h: History, clock: int)
    requires History?(limits, h, clock) && limits.cooldown <= RETENTION
    ensures CooldownKept(limits, h)
  {
    forall i, j | 0 <= i < j < |h| && Creates(limits, h, i) && Creates(limits, h, j) && h[i].op.visitor == h[j].op.visitor
      ensures h[j].at - h[i].at >= limits.cooldown
    {
      CreationRemembered(limits, h, clock, i);
      StaysRemembered(limits, h, clock, h[i].op.visitor, h[i].at, i + 1, j);
      CommitStep(limits, h, clock, j);
      CreationWaits(limits, Before(h, j), h[j].op, LastAt(h[..j], clock), h[j].at, h[i].at);
    }
  }

  /** Some limit is zero, so that nothing is ever created. */
  predicate NothingStarts(limits: Limits)
  {
    limits.active == 0 || limits.dailyGlobal == 0 || limits.dailyVisitor == 0 || limits.dailyIp == 0
  }

  lemma NoCreation(limits: Limits, h: History)
    requires NothingStarts(limits)
    ensures forall k | 0 <= k < |h| :: !Creates(limits, h, k)
  {
  }

  /** A visitor whose last creation has just been forgotten starts again. */
  lemma ForgottenVisitorStarts(limits: Limits, l: Ledger, id: string, visitor: string, kind: Kind, now: int)
    requires !NothingStarts(limits)
    requires forall x | x in l.sessions :: !HoldsCapacity(Age(l.sessions[x], now), now)
    requires visitor in l.lastCreated ==> l.lastCreated[visitor] <= now - RETENTION
    requires Day(now) !in l.daily
    ensures var t := Transaction(limits, l, Reserve(id, visitor, visitor, kind), now); t.Ok? && t.value.created
  {
    var n := Normalize(l, now).(revision := l.revision + 1);
    assert visitor !in n.lastCreated;
    assert Day(now) !in n.daily;
    assert forall x | x in n.sessions :: !HoldsCapacity(n.sessions[x], now);
    assert Holding(n, now) == {};
  }

  function Reserving(id: string, kind: Kind): Op { Reserve(id, "visitor", "visitor", kind) }

  /** Ends a session whose provider is gone. */
  function Ending(id: string): Op { Update(id, Some(ToExpired), Patch(Some(Deleted), None, 0, None, None)) }

  /** The ledger is waiting for its only visitor to be forgotten at a time two days on. */
  ghost predicate Waiting(l: Ledger, since: int)
  {
    && l.daily.Keys == {Day(since)} && l.lastCreated == map["visitor" := since]
    && forall x | x in l.sessions :: !HoldsCapacity(Age(l.sessions[x], since + RETENTION), since + RETENTION)
  }

  lemma FirstCreation(limits: Limits, clock: int, kind: Kind)
    requires !NothingStarts(limits)
    ensures var t := Transaction(limits, EmptyLedger(), Reserving("a", kind), clock);
      t.Ok? && t.value.created
      && t.value.ledger.sessions == map["a" := NewRecord(limits, "visitor", "visitor", kind, clock)]
      && t.value.ledger.daily.Keys == {Day(clock)} && t.value.ledger.lastCreated == map["visitor" := clock]
  {
    ForgottenVisitorStarts(limits, EmptyLedger(), "a", "visitor", kind, clock);
  }

  lemma EndingWaits(limits: Limits, l: Ledger, clock: int, kind: Kind)
    requires l.sessions == map["a" := NewRecord(limits, "visitor", "visitor", kind, clock)] && limits.lifetime > RETENTION
    requires l.daily.Keys == {Day(clock)} && l.lastCreated == map["visitor" := clock]
    ensures var t := Transaction(limits, l, Ending("a"), clock); t.Ok? && Waiting(t.value.ledger, clock)
  {
    var n := Normalize(l, clock);
    assert "a" in l.sessions && !Purged(Age(l.sessions["a"], clock), clock);
    assert n.sessions.Keys == {"a"};
  }

  /** One creation, followed if need be by the end of its session, leaves a ledger that is waiting. */
  lemma WaitingHistory(limits: Limits, clock: int) returns (h: History)
    requires !NothingStarts(limits)
    ensures History?(limits, h, clock) && |h| > 0 && Creates(limits, h, 0) && h[0].op == Reserving("a", SessionMeter.Wallet)
    ensures LastAt(h, clock) == h[0].at == clock && Waiting(LastValue(h, EmptyLedger()), clock)
  {
    var op := Reserving("a", SessionMeter.Wallet);
    FirstCreation(limits, clock, SessionMeter.Wallet);
    var l := Transaction(limits, EmptyLedger(), op, clock).value.ledger;
    var h1: History := [Commit(op, clock, l)];
    ChainSnoc(Performer(limits), [], EmptyLedger(), clock, Commit(op, clock, l));
    assert [] + h1 == h1;
    if limits.lifetime <= RETENTION {
      h := h1;
    } else {
      EndingWaits(limits, l, clock, SessionMeter.Wallet);
      var last := Commit(Ending("a"), clock, Transaction(limits, l, Ending("a"), clock).value.ledger);
      ChainSnoc(Performer(limits), h1, EmptyLedger(), clock, last);
      h := h1 + [last];
    }
  }

  /** With a longer cooldown some run breaks it: the visitor is forgotten exactly two days after the creation. */
  lemma LongCooldownBroken(limits: Limits, clock: int) returns (steps: seq<Step<Op>>)
    requires !NothingStarts(limits) && limits.cooldown > RETENTION
    ensures !CooldownKept(limits, Run(Performer(limits), Start(EmptyLedger(), clock), steps).commits)
  {
    var h := WaitingHistory(limits, clock);
    var l, now, op := LastValue(h, EmptyLedger()), clock + RETENTION, Reserving("b", SessionMeter.Wallet);
    ForgottenVisitorStarts(limits, l, "b", "visitor", SessionMeter.Wallet, now);
    var last := Commit(op, now, Transaction(limits, l, op, now).value.ledger);
    ChainSnoc(Performer(limits), h, EmptyLedger(), clock, last);
    var longer := h + [last];
    assert longer[..|h|] == h && longer[..0] == h[..0];
    assert Creates(limits, longer, 0) && Creates(limits, longer, |h|);
    steps := ChainIsRun(Performer(limits), longer, EmptyLedger(), clock);
  }

  /**
   Every run keeps the cooldown exactly when it is no longer than the two days a creation is remembered,
   or the limits let nothing start at all.
   */
  lemma CooldownHoldsIff(limits: Limits, clock: int)
    ensures (forall steps :: CooldownKept(limits, Run(Performer(limits), Start(EmptyLedger(), clock), steps).commits))
      <==> (limits.cooldown <= RETENTION || NothingStarts(limits))
  {
    if limits.cooldown <= RETENTION || NothingStarts(limits) {
      forall steps ensures CooldownKept(limits, Run(Performer(limits), Start(EmptyLedger(), clock), steps).commits) {
        CommitsAreOrdered(Performer(limits), EmptyLedger(), clock, steps);
        var h := Run(Performer(limits), Start(EmptyLedger(), clock), steps).commits;
        if NothingStarts(limits) { NoCreation(limits, h); } else { ShortCooldownKept(limits, h, clock); }
      }
    } else {
      var steps := LongCooldownBroken(limits, clock);
    }
  }
}
