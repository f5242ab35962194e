/**
 What the session ledger's predicates mean, on the fields of the stored records and without normalizing them first:
 who occupies capacity, who survives normalization, when a reservation creates, and who may be used.
 */
module SessionLaws {
  import opened Prelude
  import opened Counting
  import opened ClockedStore
  import opened SessionLedger
  import opened SessionQuotas
  import opened SessionLifecycle

  /** The provider may still be running the sandbox. */
  predicate StillRunning(r: Record, now: int)
  {
    && r.providerExpiresAt.Some? && now < r.providerExpiresAt.value
    && r.provider in {Some(PendingP), Some(Running), Some(Stopping), Some(Snapshotting), Some(Unknown)}
  }

  /** The provider has told that the sandbox is gone. */
  predicate Gone(r: Record)
  {
    r.provider in {Some(Stopped), Some(FailedP), Some(Aborted), Some(Missing), Some(Deleted)}
  }

  /** The stored record occupies capacity at a time, whenever it was last normalized. */
  predicate Occupies(r: Record, now: int)
  {
    || StillRunning(r, now)
    || (now < r.expiresAt &&
        (r.status.Ready? || r.status.Resetting? || (r.status.Starting? && now < r.provisioningDeadline)
         || ((r.status.Failed? || r.status.Starting?) && !Gone(r))))
  }

  lemma AgedOccupies(r: Record, now: int)
    ensures HoldsCapacity(Age(r, now), now) <==> Occupies(r, now)
  {
  }

  /** A record that is normalized already occupies capacity unless it is expired, or failed and gone, and not running. */
  lemma HoldsOnFields(r: Record, now: int)
    ensures HoldsCapacity(r, now) <==>
      StillRunning(r, now) || (now < r.expiresAt && !r.status.Expired? && !(r.status.Failed? && Gone(r)))
  {
  }

  /** Exactly the records past their tombstone that occupy nothing are dropped; the others only age. */
  lemma NormalizeIff(l: Ledger, now: int, id: string)
    ensures var n := Normalize(l, now);
      && (id in n.sessions <==> id in l.sessions && (now < l.sessions[id].tombstoneUntil || Occupies(l.sessions[id], now)))
      && (id in n.sessions ==>
            var r := l.sessions[id];
            n.sessions[id] == r.(
              status := if r.expiresAt <= now then Expired else if r.status.Starting? && r.provisioningDeadline <= now then Failed else r.status,
              errorCode := if r.expiresAt <= now && !r.status.Expired? then Some("expired")
                           else if now < r.expiresAt && r.status.Starting? && r.provisioningDeadline <= now then Some("provisioning_timeout")
                           else r.errorCode))
  {
    if id in l.sessions { AgedOccupies(l.sessions[id], now); }
  }

  /** A sandbox that may still be running is never forgotten. */
  lemma RunningSurvives(l: Ledger, now: int, id: string)
    requires id in l.sessions && StillRunning(l.sessions[id], now)
    ensures id in Normalize(l, now).sessions && StillRunning(Normalize(l, now).sessions[id], now)
  {
    NormalizeIff(l, now, id);
  }

  function Occupied(l: Ledger, now: int): set<string>
  {
    set id | id in l.sessions && Occupies(l.sessions[id], now)
  }

  lemma HoldingIsOccupied(l: Ledger, now: int, revision: nat)
    ensures Holding(Normalize(l, now).(revision := revision), now) == Occupied(l, now)
  {
    forall id | id in l.sessions ensures HoldsCapacity(Age(l.sessions[id], now), now) <==> Occupies(l.sessions[id], now) {
      AgedOccupies(l.sessions[id], now);
    }
  }

  /** The visitor's session of the kind still occupies capacity. */
  predicate Busy(l: Ledger, visitor: string, kind: Kind, now: int)
  {
    (visitor, kind) in l.latest && l.latest[(visitor, kind)] in l.sessions && Occupies(l.sessions[l.latest[(visitor, kind)]], now)
  }

  /** The visitor created a sandbox less than the cooldown and less than two days ago. */
  predicate Cooling(limits: Limits, l: Ledger, visitor: string, now: int)
  {
    visitor in l.lastCreated && now - 172_800_000 < l.lastCreated[visitor] && now < l.lastCreated[visitor] + limits.cooldown
  }

  predicate QuotaRoom(limits: Limits, c: Counter, visitor: string, ip: string)
  {
    c.global < limits.dailyGlobal && Count(c.visitors, visitor) < limits.dailyVisitor && Count(c.ips, ip) < limits.dailyIp
  }

  /**
   A reservation creates a sandbox exactly when the visitor has none of the kind occupying capacity, is not cooling down,
   fewer than the limit occupy capacity, and the day's counters leave room. It hands back the existing one exactly
   when there is one, and is refused in every other case.
   */
  lemma ReserveCreatesIff(limits: Limits, l: Ledger, id: string, visitor: string, ip: string, kind: Kind, now: int)
    ensures var t := Transaction(limits, l, Reserve(id, visitor, ip, kind), now);
      && (t.Ok? && !t.value.created <==> Busy(l, visitor, kind, now))
      && (t.Ok? && t.value.created <==>
            && !Busy(l, visitor, kind, now) && !Cooling(limits, l, visitor, now) && |Occupied(l, now)| < limits.active
            && QuotaRoom(limits, CounterOn(l, Day(now)), visitor, ip))
  {
    HoldingIsOccupied(l, now, l.revision + 1);
    LatestHolds(l, visitor, kind, now);
  }

  /** What each refusal says is so. */
  lemma ReserveErrors(limits: Limits, l: Ledger, id: string, visitor: string, ip: string, kind: Kind, now: int)
    requires Transaction(limits, l, Reserve(id, visitor, ip, kind), now).Err?
    ensures var c := CounterOn(l, Day(now));
      match Transaction(limits, l, Reserve(id, visitor, ip, kind), now).error
      case Cooldown => Cooling(limits, l, visitor, now)
      case Capacity => |Occupied(l, now)| >= limits.active
      case GlobalQuota => c.global >= limits.dailyGlobal
      case VisitorQuota => Count(c.visitors, visitor) >= limits.dailyVisitor
      case IpQuota => Count(c.ips, ip) >= limits.dailyIp
      case Conflict => false
  {
    HoldingIsOccupied(l, now, l.revision + 1);
  }

  lemma UpdateErrors(limits: Limits, l: Ledger, id: string, status: Option<Closing>, write: FencedWrite, patch: Patch, now: int)
    ensures var t := Transaction(limits, l, Update(id, status, patch), now); t.Err? ==> t.error.Conflict? && id !in Normalize(l, now).sessions
    ensures var t := Transaction(limits, l, Fenced(id, write, patch), now); t.Err? <==> id !in Normalize(l, now).sessions
    ensures var t := Transaction(limits, l, Fenced(id, write, patch), now); t.Err? ==> t.error.Conflict?
  {
  }

  lemma LatestHolds(l: Ledger, visitor: string, kind: Kind, now: int)
    ensures var n := Normalize(l, now); var key := (visitor, kind);
      (key in n.latest && n.latest[key] in n.sessions && HoldsCapacity(n.sessions[n.latest[key]], now)) <==> Busy(l, visitor, kind, now)
  {
    var key := (visitor, kind);
    if key in l.latest && l.latest[key] in l.sessions { AgedOccupies(l.sessions[l.latest[key]], now); }
  }

  /** No reservation creates while the limit is reached, and a running sandbox counts whatever its status. */
  lemma FullCapacityRefuses(limits: Limits, l: Ledger, op: Op, now: int, running: set<string>)
    requires op.Reserve? && |running| >= limits.active
    requires forall id | id in running :: id in l.sessions && (StillRunning(l.sessions[id], now) || Occupies(l.sessions[id], now))
    ensures var t := Transaction(limits, l, op, now); t.Ok? ==> !t.value.created
  {
    assert running <= Occupied(l, now);
    SubsetSize(running, Occupied(l, now));
    ReserveCreatesIff(limits, l, op.id, op.visitor, op.ip, op.kind, now);
  }

  /** The record and the pointers of a creation. */
  lemma CreatedFields(limits: Limits, l: Ledger, op: Op, now: int)
    requires op.Reserve? && Transaction(limits, l, op, now).Ok? && Transaction(limits, l, op, now).value.created
    ensures var m := Transaction(limits, l, op, now).value.ledger;
      && op.id in m.sessions && (op.visitor, op.kind) in m.latest && m.latest[(op.visitor, op.kind)] == op.id
      && op.visitor in m.lastCreated && m.lastCreated[op.visitor] == now
      && var r := m.sessions[op.id];
         && r.visitor == op.visitor && r.ip == op.ip && r.kind == op.kind && r.status.Starting? && !r.launched
         && r.createdAt == now && r.provisioningDeadline == now + limits.provisioning && r.expiresAt == now + limits.lifetime
         && r.tombstoneUntil == now + limits.lifetime + limits.tombstone
         && r.provider.None? && r.providerExpiresAt.None? && r.runtimeId.None? && r.errorCode.None?
  {
  }

  /** Every other pointer and record is as normalization left it. */
  lemma CreatedOnly(limits: Limits, l: Ledger, op: Op, now: int)
    requires op.Reserve? && Transaction(limits, l, op, now).Ok? && Transaction(limits, l, op, now).value.created
    ensures var n, m := Normalize(l, now), Transaction(limits, l, op, now).value.ledger;
      && m.sessions - {op.id} == n.sessions - {op.id} && m.latest - {(op.visitor, op.kind)} == n.latest - {(op.visitor, op.kind)}
      && m.lastCreated - {op.visitor} == n.lastCreated - {op.visitor}
  {
  }

  /** Stored fields decide: a session may be used while it is ready, unexpired and the latest of its visitor and kind. */
  lemma ForwardableIff(l: Ledger, id: string, now: int)
    ensures Forwardable(l, id, now) <==>
      && id in l.sessions && l.sessions[id].status.Ready? && now < l.sessions[id].expiresAt
      && (l.sessions[id].visitor, l.sessions[id].kind) in l.latest && l.latest[(l.sessions[id].visitor, l.sessions[id].kind)] == id
  {
    NormalizeIff(l, now, id);
  }

  /** A fenced write goes through exactly for an unexpired latest session in a state it allows. */
  predicate FenceOpen(l: Ledger, id: string, write: FencedWrite, now: int)
  {
    && id in l.sessions && now < l.sessions[id].expiresAt
    && (l.sessions[id].visitor, l.sessions[id].kind) in l.latest && l.latest[(l.sessions[id].visitor, l.sessions[id].kind)] == id
    && ((l.sessions[id].status.Starting? && now < l.sessions[id].provisioningDeadline) || (write.FailClosed? && l.sessions[id].status.Ready?))
  }

  function Later(a: int, b: int): int { if a < b then b else a }

  lemma FencedWrites(limits: Limits, l: Ledger, id: string, write: FencedWrite, patch: Patch, now: int)
    requires Transaction(limits, l, Fenced(id, write, patch), now).Ok?
    ensures id in Normalize(l, now).sessions
    ensures var n, m := Normalize(l, now), Transaction(limits, l, Fenced(id, write, patch), now).value.ledger;
      && m.latest == n.latest && m.sessions - {id} == n.sessions - {id} && id in m.sessions
      && (!FenceOpen(l, id, write, now) ==> m.sessions == n.sessions)
      && (FenceOpen(l, id, write, now) ==>
            var r := m.sessions[id];
            && (write.MarkReady? ==> r.status.Ready?) && (write.FailClosed? ==> r.status.Failed?)
            && (write.Launch? ==> r.status.Starting? && r.launched)
            && r.provider == patch.provider && r.providerExpiresAt == patch.providerExpiresAt && r.runtimeId == patch.runtimeId && r.errorCode == patch.errorCode
                  && r.tombstoneUntil == Later(n.sessions[id].tombstoneUntil, patch.tombstone))
  {
    NormalizeIff(l, now, id);
  }

  /** An unconditional update reaches every record that is kept, writes what it says and nothing else. */
  lemma UpdateWrites(limits: Limits, l: Ledger, id: string, status: Option<Closing>, patch: Patch, now: int)
    ensures var t := Transaction(limits, l, Update(id, status, patch), now); var n := Normalize(l, now);
      && (t.Ok? <==> id in n.sessions)
      && (t.Ok? ==>
            && t.value.ledger.latest == n.latest && t.value.ledger.sessions - {id} == n.sessions - {id} && id in t.value.ledger.sessions
            && var r, was := t.value.ledger.sessions[id], n.sessions[id];
               && r.status == (if status == Some(ToFailed) then Failed else if status == Some(ToExpired) then Expired
                               else if status == Some(ToResetting) then Resetting else was.status)
               && r.provider == patch.provider && r.providerExpiresAt == patch.providerExpiresAt && r.runtimeId == patch.runtimeId && r.errorCode == patch.errorCode
                  && r.tombstoneUntil == Later(was.tombstoneUntil, patch.tombstone))
  {
  }

  /** Over every run a session becomes ready before its provisioning deadline too. */
  lemma ReadyBeforeDeadline(limits: Limits, h: History, clock: int, k: nat, id: string)
    requires k < |h| && History?(limits, h, clock) && EntersReady(Before(h, k), Before(h, k + 1), id)
    ensures id in Before(h, k).sessions && h[k].at < Before(h, k).sessions[id].provisioningDeadline
  {
    ReadyFromStarting(limits, h, clock, k, id);
    CommitStep(limits, h, clock, k);
    FencedWrites(limits, Before(h, k), id, h[k].op.write, h[k].op.patch, h[k].at);
    NormalizeIff(Before(h, k), h[k].at, id);
  }
}
