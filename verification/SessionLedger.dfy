/**
 The hosted session ledger (packages/hosted-broker/src/ledger.ts): capacity, lazy normalization, reservation
 under daily quotas, and the fenced and unconditional record updates the broker makes.

 Times are milliseconds; a day is a whole number of 86,400,000 of them.
 */
module SessionLedger {
  import opened Prelude
  import opened Counting
  import SessionMeter

  const DAY: int := 86_400_000
  const RETENTION: int := 2 * DAY

  type Kind = SessionMeter.Kind
  type Key = (string, Kind)

  datatype Status = Starting | Ready | Expired | Failed | Resetting

  datatype Provider = PendingP | Running | Stopping | Snapshotting | Unknown | Stopped | FailedP | Aborted | Missing | Deleted

  datatype Record = Record(
    visitor: string, ip: string, kind: Kind, status: Status, createdAt: int, provisioningDeadline: int, expiresAt: int,
    tombstoneUntil: int, launched: bool, provider: Option<Provider>, providerExpiresAt: Option<int>,
    runtimeId: Option<string>, errorCode: Option<string>)

  datatype Counter = Counter(global: nat, visitors: map<string, nat>, ips: map<string, nat>)

  datatype Ledger = Ledger(
    revision: nat, sessions: map<string, Record>, latest: map<Key, string>, daily: map<int, Counter>, lastCreated: map<string, int>)

  datatype Limits = Limits(
    active: nat, dailyGlobal: nat, dailyVisitor: nat, dailyIp: nat, cooldown: nat, lifetime: nat, provisioning: nat, tombstone: nat)

  datatype Failure = Capacity | GlobalQuota | VisitorQuota | IpQuota | Cooldown | Conflict

  function EmptyLedger(): Ledger { Ledger(0, map[], map[], map[], map[]) }

  function Day(now: int): int { now / DAY }

  // ----- capacity and normalization -----

  predicate MayBeLive(p: Option<Provider>)
  {
    p.Some? && (p.value.PendingP? || p.value.Running? || p.value.Stopping? || p.value.Snapshotting? || p.value.Unknown?)
  }

  predicate TerminalProvider(p: Option<Provider>)
  {
    p.Some? && (p.value.Stopped? || p.value.FailedP? || p.value.Aborted? || p.value.Missing? || p.value.Deleted?)
  }

  predicate HoldsCapacity(r: Record, now: int)
  {
    || (MayBeLive(r.provider) && r.providerExpiresAt.Some? && r.providerExpiresAt.value > now)
    || (r.expiresAt > now && (r.status.Starting? || r.status.Ready? || r.status.Resetting? || (r.status.Failed? && !TerminalProvider(r.provider))))
  }

  function Age(r: Record, now: int): Record
  {
    if r.expiresAt <= now && !r.status.Expired? then r.(status := Expired, errorCode := Some("expired"))
    else if r.status.Starting? && r.provisioningDeadline <= now then r.(status := Failed, errorCode := Some("provisioning_timeout"))
    else r
  }

  predicate Purged(r: Record, now: int)
  {
    r.tombstoneUntil <= now && !HoldsCapacity(r, now)
  }

  function AgedSessions(sessions: map<string, Record>, now: int): map<string, Record>
  {
    map id | id in sessions && !Purged(Age(sessions[id], now), now) :: Age(sessions[id], now)
  }

  function LiveLatest(latest: map<Key, string>, sessions: map<string, Record>): map<Key, string>
  {
    map k | k in latest && latest[k] in sessions :: latest[k]
  }

  function RecentDays(daily: map<int, Counter>, now: int): map<int, Counter>
  {
    map d | d in daily && d >= Day(now) - 2 :: daily[d]
  }

  function RecentCreations(lastCreated: map<string, int>, now: int): map<string, int>
  {
    map v | v in lastCreated && lastCreated[v] > now - RETENTION :: lastCreated[v]
  }

  /** normalizeLedger */
  function Normalize(l: Ledger, now: int): Ledger
  {
    var sessions := AgedSessions(l.sessions, now);
    Ledger(l.revision, sessions, LiveLatest(l.latest, sessions), RecentDays(l.daily, now), RecentCreations(l.lastCreated, now))
  }

  lemma AgeTwice(r: Record, t1: int, t2: int)
    requires t1 <= t2
    ensures Age(Age(r, t1), t2) == Age(r, t2)
    ensures Purged(Age(r, t1), t1) ==> Purged(Age(r, t2), t2)
  {
  }

  lemma AgedTwice(s: map<string, Record>, t1: int, t2: int)
    requires t1 <= t2
    ensures AgedSessions(AgedSessions(s, t1), t2) == AgedSessions(s, t2)
    ensures AgedSessions(s, t2).Keys <= AgedSessions(s, t1).Keys
  {
    forall id | id in s
      ensures Age(Age(s[id], t1), t2) == Age(s[id], t2) && (Purged(Age(s[id], t1), t1) ==> Purged(Age(s[id], t2), t2))
    {
      AgeTwice(s[id], t1, t2);
    }
  }

  /** Normalizing early changes nothing about normalizing later; in particular normalization is idempotent. */
  lemma LazyEqualsEager(l: Ledger, t1: int, t2: int)
    requires t1 <= t2
    ensures Normalize(Normalize(l, t1), t2) == Normalize(l, t2)
  {
    AgedTwice(l.sessions, t1, t2);
    var s1, s2 := AgedSessions(l.sessions, t1), AgedSessions(l.sessions, t2);
    assert LiveLatest(LiveLatest(l.latest, s1), s2) == LiveLatest(l.latest, s2);
    assert RecentDays(RecentDays(l.daily, t1), t2) == RecentDays(l.daily, t2);
    assert RecentCreations(RecentCreations(l.lastCreated, t1), t2) == RecentCreations(l.lastCreated, t2);
  }

  /** Normalization never makes a record start holding capacity, drops only records that hold none, and leaves no dangling pointer. */
  lemma NormalizeIsSound(l: Ledger, now: int)
    ensures var n := Normalize(l, now);
      && (forall id | id in n.sessions :: id in l.sessions && (HoldsCapacity(n.sessions[id], now) ==> HoldsCapacity(l.sessions[id], now)))
      && (forall id | id in l.sessions && id !in n.sessions :: !HoldsCapacity(Age(l.sessions[id], now), now))
      && (forall id | id in l.sessions && id !in n.sessions && l.sessions[id].tombstoneUntil >= l.sessions[id].expiresAt ::
            !HoldsCapacity(l.sessions[id], now))
      && (forall k | k in n.latest :: n.latest[k] in n.sessions)
  {
  }

  // ----- reservation -----

  function CounterOn(l: Ledger, day: int): Counter
  {
    if day in l.daily then l.daily[day] else Counter(0, map[], map[])
  }

  function Holding(l: Ledger, now: int): set<string>
  {
    set id | id in l.sessions && HoldsCapacity(l.sessions[id], now)
  }

  function NewRecord(limits: Limits, visitor: string, ip: string, kind: Kind, now: int): Record
  {
    Record(visitor, ip, kind, Starting, now, now + limits.provisioning, now + limits.lifetime, now + limits.lifetime + limits.tombstone,
           false, None, None, None, None)
  }

  datatype Outcome = Outcome(ledger: Ledger, created: bool)

  function Bumped(c: Counter, visitor: string, ip: string): Counter
  {
    Counter(c.global + 1, c.visitors[visitor := Count(c.visitors, visitor) + 1], c.ips[ip := Count(c.ips, ip) + 1])
  }

  /** The ledger after a creation. */
  function WithSession(limits: Limits, l: Ledger, id: string, visitor: string, ip: string, kind: Kind, now: int): Ledger
  {
    l.(sessions := l.sessions[id := NewRecord(limits, visitor, ip, kind, now)],
       latest := l.latest[(visitor, kind) := id],
       lastCreated := l.lastCreated[visitor := now],
       daily := l.daily[Day(now) := Bumped(CounterOn(l, Day(now)), visitor, ip)])
  }

  /** The body of reserve, on a normalized ledger. */
  function ReserveOn(limits: Limits, l: Ledger, id: string, visitor: string, ip: string, kind: Kind, now: int): Result<Outcome, Failure>
  {
    var key := (visitor, kind);
    var c := CounterOn(l, Day(now));
    if key in l.latest && l.latest[key] in l.sessions && HoldsCapacity(l.sessions[l.latest[key]], now) then Ok(Outcome(l, false))
    else if visitor in l.lastCreated && l.lastCreated[visitor] + limits.cooldown > now then Err(Cooldown)
    else if |Holding(l, now)| >= limits.active then Err(Capacity)
    else if c.global >= limits.dailyGlobal then Err(GlobalQuota)
    else if Count(c.visitors, visitor) >= limits.dailyVisitor then Err(VisitorQuota)
    else if Count(c.ips, ip) >= limits.dailyIp then Err(IpQuota)
    else Ok(Outcome(WithSession(limits, l, id, visitor, ip, kind, now), true))
  }

  // ----- record updates -----

  /** The writes the broker makes under updateFenced with the latest flag set. */
  datatype FencedWrite = Launch | MarkReady | FailClosed

  /** Provider fields written by an update; a tombstone is only ever extended. */
  datatype Patch = Patch(provider: Option<Provider>, providerExpiresAt: Option<int>, tombstone: int, runtimeId: Option<string>, errorCode: Option<string>)

  /** The statuses an unconditional update may write. */
  datatype Closing = ToFailed | ToExpired | ToResetting

  function ClosingStatus(c: Closing): Status
  {
    match c
    case ToFailed => Failed
    case ToExpired => Expired
    case ToResetting => Resetting
  }

  function Patched(r: Record, p: Patch): Record
  {
    r.(provider := p.provider, providerExpiresAt := p.providerExpiresAt,
       tombstoneUntil := if p.tombstone > r.tombstoneUntil then p.tombstone else r.tombstoneUntil,
       runtimeId := p.runtimeId, errorCode := p.errorCode)
  }

  datatype Op =
    | Reserve(id: string, visitor: string, ip: string, kind: Kind)
    | Update(id: string, status: Option<Closing>, patch: Patch)
    | Fenced(id: string, write: FencedWrite, patch: Patch)

  predicate Allowed(write: FencedWrite, status: Status)
  {
    status.Starting? || (write.FailClosed? && status.Ready?)
  }

  function FencedStatus(write: FencedWrite, status: Status): Status
  {
    match write
    case Launch => status
    case MarkReady => Ready
    case FailClosed => Failed
  }

  predicate FenceHolds(l: Ledger, id: string, write: FencedWrite, now: int)
    requires id in l.sessions
  {
    var r := l.sessions[id];
    Allowed(write, r.status) && (r.visitor, r.kind) in l.latest && l.latest[(r.visitor, r.kind)] == id && r.expiresAt > now
  }

  /** What an operation does to a normalized ledger. A fence that does not hold still commits. */
  function Callback(limits: Limits, n: Ledger, op: Op, now: int): Result<Outcome, Failure>
  {
    match op
    case Reserve(id, visitor, ip, kind) => ReserveOn(limits, n, id, visitor, ip, kind, now)
    case Update(id, status, patch) =>
      if id !in n.sessions then Err(Conflict)
      else
        var r := Patched(n.sessions[id], patch);
        Ok(Outcome(n.(sessions := n.sessions[id := if status.Some? then r.(status := ClosingStatus(status.value)) else r]), false))
    case Fenced(id, write, patch) =>
      if id !in n.sessions then Err(Conflict)
      else if !FenceHolds(n, id, write, now) then Ok(Outcome(n, false))
      else
        var r := Patched(n.sessions[id], patch);
        Ok(Outcome(n.(sessions := n.sessions[id := r.(status := FencedStatus(write, r.status), launched := r.launched || write.Launch?)]), false))
  }

  /** One transaction: normalize, run the operation, bump the revision. */
  function Transaction(limits: Limits, l: Ledger, op: Op, now: int): Result<Outcome, Failure>
  {
    Callback(limits, Normalize(l, now).(revision := l.revision + 1), op, now)
  }

  /** Whether the session may be used: assertForwardable and forwardableById before they look at the meter. */
  predicate Forwardable(l: Ledger, id: string, now: int)
  {
    var n := Normalize(l, now);
    id in n.sessions
    && var r := n.sessions[id];
       r.status.Ready? && r.expiresAt > now && (r.visitor, r.kind) in n.latest && n.latest[(r.visitor, r.kind)] == id
  }

  // ----- the ledger object -----

  /** The ledger as the object the callbacks change: records, pointers and counters are rewritten in place. */
  class LedgerObject {
    var sessions: map<string, Record>
    var latest: map<Key, string>
    var daily: map<int, Counter>
    var lastCreated: map<string, int>
    var revision: nat

    ghost function View(): Ledger
      reads this
    {
      Ledger(revision, sessions, latest, daily, lastCreated)
    }

    constructor (l: Ledger)
      ensures View() == l
    {
      sessions, latest, daily, lastCreated, revision := l.sessions, l.latest, l.daily, l.lastCreated, l.revision;
    }

    /** First loop of normalizeLedger: statuses age in place. */
    method AgeRecords(now: int)
      modifies this`sessions
      ensures sessions.Keys == old(sessions).Keys
      ensures forall id | id in sessions :: sessions[id] == Age(old(sessions)[id], now)
    {
      var todo := sessions.Keys;
      while todo != {}
        invariant todo <= sessions.Keys == old(sessions).Keys
        invariant forall id | id in sessions :: sessions[id] == if id in todo then old(sessions)[id] else Age(old(sessions)[id], now)
        decreases |todo|
      {
        var id :| id in todo;
        var r := sessions[id];
        if r.expiresAt <= now && !r.status.Expired? {
          r := r.(status := Expired, errorCode := Some("expired"));
        } else if r.status.Starting? && r.provisioningDeadline <= now {
          r := r.(status := Failed, errorCode := Some("provisioning_timeout"));
        }
        sessions := sessions[id := r];
        todo := todo - {id};
      }
    }

    /** Second loop: records past their tombstone that hold no capacity are deleted. */
    method PurgeRecords(now: int)
      modifies this`sessions
      ensures sessions == map id | id in old(sessions) && !Purged(old(sessions)[id], now) :: old(sessions)[id]
    {
      var todo := sessions.Keys;
      while todo != {}
        invariant todo <= sessions.Keys <= old(sessions).Keys
        invariant forall id | id in old(sessions) :: id in sessions <==> (id in todo || !Purged(old(sessions)[id], now))
        invariant forall id | id in sessions :: sessions[id] == old(sessions)[id]
        decreases |todo|
      {
        var id :| id in todo;
        if Purged(sessions[id], now) { sessions := sessions - {id}; }
        todo := todo - {id};
      }
    }

    /** normalizeLedger */
    method NormalizeInPlace(now: int)
      modifies this
      ensures View() == Normalize(old(View()), now)
    {
      AgeRecords(now);
      PurgeRecords(now);
      assert sessions == AgedSessions(old(sessions), now);
      latest := map k | k in latest && latest[k] in sessions :: latest[k];
      assert latest == LiveLatest(old(latest), sessions);
      daily := map d | d in daily && d >= Day(now) - 2 :: daily[d];
      assert daily == RecentDays(old(daily), now);
      lastCreated := map v | v in lastCreated && lastCreated[v] > now - RETENTION :: lastCreated[v];
      assert lastCreated == RecentCreations(old(lastCreated), now);
    }

    /** The writes of a creation. */
    method Create(limits: Limits, id: string, visitor: string, ip: string, kind: Kind, now: int)
      modifies this
      ensures View() == WithSession(limits, old(View()), id, visitor, ip, kind, now)
    {
      var counter := if Day(now) in daily then daily[Day(now)] else Counter(0, map[], map[]);
      sessions := sessions[id := NewRecord(limits, visitor, ip, kind, now)];
      latest := latest[(visitor, kind) := id];
      lastCreated := lastCreated[visitor := now];
      counter := counter.(global := counter.global + 1);
      counter := counter.(visitors := counter.visitors[visitor := Count(counter.visitors, visitor) + 1]);
      counter := counter.(ips := counter.ips[ip := Count(counter.ips, ip) + 1]);
      daily := daily[Day(now) := counter];
    }

    /** The callback of reserve; a failure leaves the object alone. */
    method ReserveNormalized(limits: Limits, id: string, visitor: string, ip: string, kind: Kind, now: int) returns (r: Result<bool, Failure>)
      modifies this
      ensures var t := ReserveOn(limits, old(View()), id, visitor, ip, kind, now);
        if t.Ok? then r == Ok(t.value.created) && View() == t.value.ledger else r == Err(t.error) && View() == old(View())
    {
      var key := (visitor, kind);
      if key in latest && latest[key] in sessions && HoldsCapacity(sessions[latest[key]], now) { return Ok(false); }
      if visitor in lastCreated && lastCreated[visitor] + limits.cooldown > now { return Err(Cooldown); }
      ghost var before := View();
      var holding := set s | s in sessions && HoldsCapacity(sessions[s], now);
      assert holding == Holding(before, now);
      if |holding| >= limits.active { return Err(Capacity); }
      var counter := if Day(now) in daily then daily[Day(now)] else Counter(0, map[], map[]);
      if counter.global >= limits.dailyGlobal { return Err(GlobalQuota); }
      if Count(counter.visitors, visitor) >= limits.dailyVisitor { return Err(VisitorQuota); }
      if Count(counter.ips, ip) >= limits.dailyIp { return Err(IpQuota); }
      Create(limits, id, visitor, ip, kind, now);
      return Ok(true);
    }

    /** The reserve transaction on the clone that will be swapped in; on an error the caller drops the clone. */
    method ReserveInPlace(limits: Limits, id: string, visitor: string, ip: string, kind: Kind, now: int) returns (r: Result<bool, Failure>)
      modifies this
      ensures var t := Transaction(limits, old(View()), Reserve(id, visitor, ip, kind), now);
        if t.Ok? then r == Ok(t.value.created) && View() == t.value.ledger else r == Err(t.error)
    {
      NormalizeInPlace(now);
      revision := revision + 1;
      r := ReserveNormalized(limits, id, visitor, ip, kind, now);
    }

    /** The update transaction, whose callback writes provider fields and perhaps a closing status. */
    method UpdateInPlace(limits: Limits, id: string, status: Option<Closing>, patch: Patch, now: int) returns (r: Option<Failure>)
      modifies this
      ensures var t := Transaction(limits, old(View()), Update(id, status, patch), now);
        if t.Ok? then r == None && View() == t.value.ledger else r == Some(t.error)
    {
      NormalizeInPlace(now);
      if id !in sessions { return Some(Conflict); }
      var item := Patched(sessions[id], patch);
      if status.Some? { item := item.(status := ClosingStatus(status.value)); }
      sessions := sessions[id := item];
      revision := revision + 1;
      return None;
    }

    /** The updateFenced transaction; the result says whether the write was applied. */
    method UpdateFencedInPlace(limits: Limits, id: string, write: FencedWrite, patch: Patch, now: int) returns (r: Result<bool, Failure>)
      modifies this
      ensures var t := Transaction(limits, old(View()), Fenced(id, write, patch), now);
        if t.Ok? then View() == t.value.ledger && r.Ok? && id in Normalize(old(View()), now).sessions
          && r.value == FenceHolds(Normalize(old(View()), now), id, write, now)
        else r == Err(t.error)
    {
      NormalizeInPlace(now);
      if id !in sessions { return Err(Conflict); }
      var item := sessions[id];
      var isLatest := (item.visitor, item.kind) in latest && latest[(item.visitor, item.kind)] == id;
      revision := revision + 1;
      if !Allowed(write, item.status) || !isLatest || item.expiresAt <= now { return Ok(false); }
      item := Patched(item, patch);
      item := item.(status := FencedStatus(write, item.status), launched := item.launched || write.Launch?);
      sessions := sessions[id := item];
      return Ok(true);
    }
  }
}
