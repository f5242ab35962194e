/**
 The durable faucet journal (packages/hosted-devnet/src/ledger.ts): the ledger value, what each
 journal method does to it, and what every such mutation keeps.

 Times are milliseconds. SHA-256 operation ids are taken to be injective, so an id is the tuple it
 hashes. Each function below is the `change` callback of one swap, including the revision bump;
 an error means that nothing is written.
 */
module Journal {
  import opened Prelude

  const FAUCET_RESERVATION: nat := 9_000_000
  const FAUCET_DAILY_GRANTS: nat := 30
  const FAUCET_DAILY: nat := 270_000_000
  const FAUCET_LIFETIME: nat := 1_000_000_000
  const VISITOR_DAILY_GRANTS: nat := 3
  const IP_DAILY_GRANTS: nat := 12
  const OBSERVATION_RESERVATION: nat := 10_000
  const OBSERVATION_LIFETIME: nat := 10_000_000
  const PREPARATION_LEASE_MS: nat := 45_000

  datatype Kind = Faucet | Observation
  datatype OpState = Reserved | Prepared | Submitted | Confirmed | Failed | Expired
  datatype Error = FaucetDisabled | GlobalQuota | VisitorQuota | IpQuota | ObservationBudget
                 | OperationState | LeaseBusy | LeaseLost

  datatype OpId = GrantId(owner: string, asset: string, day: int)
                | ObservationId(asset: string, bucket: int)

  /** Signatures of different payer keys differ. */
  datatype Signature = Signature(payer: Kind, bytes: nat)
  datatype Attempt = Attempt(signature: Signature, lastValidBlockHeight: nat, transaction: string)

  datatype Operation = Operation(
    kind: Kind, state: OpState, reservation: nat, createdAt: int, visitor: string, ip: string,
    fence: Option<nat>, attempt: Option<Attempt>,
    submittedAt: Option<int>, completedAt: Option<int>, errorCode: Option<string>)

  datatype Lease = Lease(opId: OpId, holder: nat, fence: nat, expiresAt: int)

  datatype Quota = Quota(grants: nat, lamports: nat, visitors: map<string, nat>, ips: map<string, nat>)

  datatype Ledger = Ledger(
    revision: nat, nextFence: nat, disabledReason: Option<string>,
    faucetLifetime: nat, observationLifetime: nat,
    daily: map<int, Quota>, leases: map<Kind, Lease>, operations: map<OpId, Operation>)

  function EmptyLedger(): Ledger
  {
    Ledger(0, 0, None, 0, 0, map[], map[], map[])
  }

  function KindOf(id: OpId): Kind
  {
    if id.GrantId? then Faucet else Observation
  }

  function Reservation(kind: Kind): nat
  {
    if kind.Faucet? then FAUCET_RESERVATION else OBSERVATION_RESERVATION
  }

  function LifetimeCap(kind: Kind): nat
  {
    if kind.Faucet? then FAUCET_LIFETIME else OBSERVATION_LIFETIME
  }

  predicate Terminal(state: OpState)
  {
    state.Confirmed? || state.Failed? || state.Expired?
  }

  predicate Active(state: OpState)
  {
    !Terminal(state)
  }

  function Rank(state: OpState): nat
  {
    match state
    case Reserved => 0
    case Prepared => 1
    case Submitted => 2
    case _ => 3
  }

  function Count(m: map<string, nat>, key: string): nat
  {
    if key in m then m[key] else 0
  }

  // ----- the mutations -----

  function ReserveGrant(l: Ledger, owner: string, asset: string, visitor: string, ip: string, day: int, at: int): Result<Ledger, Error>
  {
    var id := GrantId(owner, asset, day);
    var quota := if day in l.daily then l.daily[day] else Quota(0, 0, map[], map[]);
    if l.disabledReason.Some? then Err(FaucetDisabled)
    else if id in l.operations then Ok(l.(revision := l.revision + 1))
    else if quota.grants >= FAUCET_DAILY_GRANTS || quota.lamports + FAUCET_RESERVATION > FAUCET_DAILY
            || l.faucetLifetime + FAUCET_RESERVATION > FAUCET_LIFETIME then Err(GlobalQuota)
    else if Count(quota.visitors, visitor) >= VISITOR_DAILY_GRANTS then Err(VisitorQuota)
    else if Count(quota.ips, ip) >= IP_DAILY_GRANTS then Err(IpQuota)
    else
      var used := Quota(quota.grants + 1, quota.lamports + FAUCET_RESERVATION,
                        quota.visitors[visitor := Count(quota.visitors, visitor) + 1],
                        quota.ips[ip := Count(quota.ips, ip) + 1]);
      Ok(l.(revision := l.revision + 1, faucetLifetime := l.faucetLifetime + FAUCET_RESERVATION,
            daily := l.daily[day := used],
            operations := l.operations[id := Operation(Faucet, Reserved, FAUCET_RESERVATION, at, visitor, ip,
                                                       None, None, None, None, None)]))
  }

  function ReserveObservation(l: Ledger, asset: string, bucket: int, at: int): Result<Ledger, Error>
  {
    var id := ObservationId(asset, bucket);
    if id in l.operations then Ok(l.(revision := l.revision + 1))
    else if l.observationLifetime + OBSERVATION_RESERVATION > OBSERVATION_LIFETIME then Err(ObservationBudget)
    else Ok(l.(revision := l.revision + 1, observationLifetime := l.observationLifetime + OBSERVATION_RESERVATION,
               operations := l.operations[id := Operation(Observation, Reserved, OBSERVATION_RESERVATION, at, "", "",
                                                          None, None, None, None, None)]))
  }

  /** `snapshot` is the caller's copy of the operation, possibly stale. */
  function Acquire(l: Ledger, id: OpId, snapshot: Operation, holder: nat, now: int): Result<Ledger, Error>
  {
    if !Active(snapshot.state) then Err(OperationState)
    else if id !in l.operations || !Active(l.operations[id].state) then Err(OperationState)
    else if snapshot.kind in l.leases && l.leases[snapshot.kind].expiresAt > now then Err(LeaseBusy)
    else
      var fence := l.nextFence + 1;
      var op := l.operations[id];
      Ok(l.(revision := l.revision + 1, nextFence := fence,
            leases := l.leases[snapshot.kind := Lease(id, holder, fence, now + PREPARATION_LEASE_MS)],
            operations := if op.state.Reserved? then l.operations
                          else l.operations[id := op.(fence := Some(fence))]))
  }

  predicate SameLease(l: Ledger, kind: Kind, id: OpId, lease: Lease)
  {
    kind in l.leases && l.leases[kind].opId == id
    && l.leases[kind].holder == lease.holder && l.leases[kind].fence == lease.fence
  }

  function PersistPrepared(l: Ledger, id: OpId, lease: Lease, attempt: Attempt, now: int): Result<Ledger, Error>
  {
    if id !in l.operations || !l.operations[id].state.Reserved? then Err(OperationState)
    else
      var op := l.operations[id];
      if !SameLease(l, op.kind, id, lease) || l.leases[op.kind].expiresAt <= now then Err(LeaseLost)
      else Ok(l.(revision := l.revision + 1,
                 operations := l.operations[id := op.(state := Prepared, fence := Some(lease.fence), attempt := Some(attempt))]))
  }

  /** The read-only check made just before a send. */
  predicate SendFence(l: Ledger, id: OpId, lease: Lease, now: int)
  {
    id in l.operations
    && var op := l.operations[id];
       (op.state.Prepared? || op.state.Submitted?) && op.fence == Some(lease.fence)
       && SameLease(l, op.kind, id, lease) && l.leases[op.kind].expiresAt > now
  }

  function Release(l: Ledger, lease: Lease, state: Option<OpState>, errorCode: Option<string>, now: int): Result<Ledger, Error>
  {
    if lease.opId !in l.operations then Err(OperationState)
    else
      var op := l.operations[lease.opId];
      var same := SameLease(l, op.kind, lease.opId, lease);
      var owns := same && op.fence == Some(lease.fence) && l.leases[op.kind].expiresAt > now;
      var freed := l.(revision := l.revision + 1, leases := if same then l.leases - {op.kind} else l.leases);
      if state.None? || Terminal(op.state) then Ok(freed)
      else if !owns then Err(LeaseLost)
      else if op.state.Reserved? then Err(OperationState)
      else Ok(freed.(operations := l.operations[lease.opId := op.(
                       state := state.value,
                       submittedAt := if state.value.Submitted? then Some(now) else op.submittedAt,
                       completedAt := if Terminal(state.value) then Some(now) else op.completedAt,
                       errorCode := errorCode)]))
  }

  function Transition(l: Ledger, id: OpId, state: OpState, errorCode: Option<string>, now: int): Result<Ledger, Error>
  {
    if id !in l.operations then Err(OperationState)
    else
      var op := l.operations[id];
      if Terminal(op.state) then Ok(l.(revision := l.revision + 1))
      else if op.attempt.None? || state.Reserved? || state.Prepared? then Err(OperationState)
      else Ok(l.(revision := l.revision + 1,
                 operations := l.operations[id := op.(
                   state := state, errorCode := errorCode,
                   submittedAt := if state.Submitted? && op.submittedAt.None? then Some(now) else op.submittedAt,
                   completedAt := if Terminal(state) then Some(now) else op.completedAt)]))
  }

  function DisableFaucet(l: Ledger, reason: string): Ledger
  {
    l.(revision := l.revision + 1, disabledReason := if l.disabledReason.None? then Some(reason) else l.disabledReason)
  }

  // ----- the ledger invariant -----

  ghost predicate RecordOk(l: Ledger, id: OpId)
    requires id in l.operations
  {
    var op := l.operations[id];
    && op.kind == KindOf(id)
    && op.reservation == Reservation(op.kind)
    && (op.attempt.Some? <==> !op.state.Reserved?)
    && (op.fence.Some? <==> !op.state.Reserved?)
    && (op.fence.Some? ==> op.fence.value <= l.nextFence)
    && (op.attempt.Some? ==> op.attempt.value.signature.payer == op.kind)
  }

  /** A live lease names an operation of its kind, and once that operation has an attempt both carry one fence. */
  ghost predicate LeaseOk(l: Ledger, kind: Kind)
    requires kind in l.leases
  {
    var lease := l.leases[kind];
    && lease.opId in l.operations
    && KindOf(lease.opId) == kind
    && lease.fence <= l.nextFence
    && (!l.operations[lease.opId].state.Reserved? ==> l.operations[lease.opId].fence == Some(lease.fence))
  }

  ghost function OfKind(l: Ledger, kind: Kind): set<OpId>
  {
    set id | id in l.operations && KindOf(id) == kind
  }

  ghost function GrantsOn(l: Ledger, day: int): set<OpId>
  {
    set id | id in l.operations && id.GrantId? && id.day == day
  }

  ghost function VisitorGrantsOn(l: Ledger, day: int, visitor: string): set<OpId>
  {
    set id | id in l.operations && id.GrantId? && id.day == day && l.operations[id].visitor == visitor
  }

  ghost function IpGrantsOn(l: Ledger, day: int, ip: string): set<OpId>
  {
    set id | id in l.operations && id.GrantId? && id.day == day && l.operations[id].ip == ip
  }

  function QuotaOn(l: Ledger, day: int): Quota
  {
    if day in l.daily then l.daily[day] else Quota(0, 0, map[], map[])
  }

  /** The counters of one day are exact counts of that day's grants. */
  ghost predicate DayOk(l: Ledger, day: int)
  {
    var quota := QuotaOn(l, day);
    && quota.grants == |GrantsOn(l, day)| <= FAUCET_DAILY_GRANTS
    && quota.lamports == FAUCET_RESERVATION * quota.grants
    && (forall v :: VisitorOk(l, day, v))
    && (forall i :: IpOk(l, day, i))
  }

  ghost predicate VisitorOk(l: Ledger, day: int, visitor: string)
  {
    Count(QuotaOn(l, day).visitors, visitor) == |VisitorGrantsOn(l, day, visitor)| <= VISITOR_DAILY_GRANTS
  }

  ghost predicate IpOk(l: Ledger, day: int, ip: string)
  {
    Count(QuotaOn(l, day).ips, ip) == |IpGrantsOn(l, day, ip)| <= IP_DAILY_GRANTS
  }

  ghost predicate BudgetOk(l: Ledger)
  {
    && l.faucetLifetime == FAUCET_RESERVATION * |OfKind(l, Faucet)| <= FAUCET_LIFETIME
    && l.observationLifetime == OBSERVATION_RESERVATION * |OfKind(l, Observation)| <= OBSERVATION_LIFETIME
  }

  ghost predicate CountsInv(l: Ledger)
  {
    BudgetOk(l) && forall day :: DayOk(l, day)
  }

  ghost predicate RecordsInv(l: Ledger)
  {
    && (forall id | id in l.operations :: RecordOk(l, id))
    && (forall kind | kind in l.leases :: LeaseOk(l, kind))
  }

  ghost predicate Inv(l: Ledger)
  {
    RecordsInv(l) && CountsInv(l)
  }

  lemma EmptyLedgerOk()
    ensures Inv(EmptyLedger())
  {
    var l := EmptyLedger();
    forall day ensures DayOk(l, day) {
      assert GrantsOn(l, day) == {};
      forall v ensures VisitorOk(l, day, v) { assert VisitorGrantsOn(l, day, v) == {}; }
      forall i ensures IpOk(l, day, i) { assert IpGrantsOn(l, day, i) == {}; }
    }
    assert OfKind(l, Faucet) == {} && OfKind(l, Observation) == {};
  }

  // ----- what a mutation may do to the records that already exist -----

  /** From `l` to `m` no record is lost or rewritten: rank only grows, a terminal record is frozen,
      a written attempt stays, and the identity of the operation is fixed. */
  ghost predicate Progress(l: Ledger, m: Ledger)
  {
    && l.nextFence <= m.nextFence
    && forall id | id in l.operations :: id in m.operations && OpProgress(l.operations[id], m.operations[id])
  }

  ghost predicate OpProgress(before: Operation, after: Operation)
  {
    && after.kind == before.kind && after.reservation == before.reservation
    && after.visitor == before.visitor && after.ip == before.ip
    && Rank(before.state) <= Rank(after.state)
    && (Terminal(before.state) ==> after == before)
    && (before.attempt.Some? ==> after.attempt == before.attempt)
  }

  /** Grants with the same days, visitors and addresses under the same counters: the counts carry over. */
  lemma DaysCarryOver(l: Ledger, m: Ledger)
    requires forall day :: DayOk(l, day)
    requires m.daily == l.daily
    requires OfKind(m, Faucet) == OfKind(l, Faucet)
    requires forall id | id in OfKind(l, Faucet) ::
      m.operations[id].visitor == l.operations[id].visitor && m.operations[id].ip == l.operations[id].ip
    ensures forall day :: DayOk(m, day)
  {
    assert forall id: OpId :: id.GrantId? ==> (id in OfKind(l, Faucet) <==> id in l.operations);
    assert forall id: OpId :: id.GrantId? ==> (id in OfKind(m, Faucet) <==> id in m.operations);
    forall day ensures DayOk(m, day) {
      assert DayOk(l, day) && GrantsOn(m, day) == GrantsOn(l, day);
      forall v ensures VisitorOk(m, day, v) { assert VisitorOk(l, day, v) && VisitorGrantsOn(m, day, v) == VisitorGrantsOn(l, day, v); }
      forall i ensures IpOk(m, day, i) { assert IpOk(l, day, i) && IpGrantsOn(m, day, i) == IpGrantsOn(l, day, i); }
    }
  }

  /** A mutation that only touches lifecycle fields keeps every count. */
  lemma CountsCarryOver(l: Ledger, m: Ledger)
    requires CountsInv(l)
    requires m.operations.Keys == l.operations.Keys && m.daily == l.daily
    requires m.faucetLifetime == l.faucetLifetime && m.observationLifetime == l.observationLifetime
    requires forall id | id in l.operations ::
      m.operations[id].visitor == l.operations[id].visitor && m.operations[id].ip == l.operations[id].ip
    ensures CountsInv(m)
  {
    assert OfKind(m, Faucet) == OfKind(l, Faucet) && OfKind(m, Observation) == OfKind(l, Observation);
    DaysCarryOver(l, m);
  }

  /** The ledger after one more grant. */
  ghost function WithGrant(l: Ledger, id: OpId, op: Operation): Ledger
    requires id.GrantId?
  {
    var q := QuotaOn(l, id.day);
    l.(revision := l.revision + 1, faucetLifetime := l.faucetLifetime + FAUCET_RESERVATION,
       daily := l.daily[id.day := Quota(q.grants + 1, q.lamports + FAUCET_RESERVATION,
                                        q.visitors[op.visitor := Count(q.visitors, op.visitor) + 1],
                                        q.ips[op.ip := Count(q.ips, op.ip) + 1])],
       operations := l.operations[id := op])
  }

  lemma GrantVisitorOk(l: Ledger, id: OpId, op: Operation, day: int, v: string)
    requires id.GrantId? && id !in l.operations && VisitorOk(l, day, v)
    requires Count(QuotaOn(l, id.day).visitors, op.visitor) < VISITOR_DAILY_GRANTS
    ensures VisitorOk(WithGrant(l, id, op), day, v)
  {
    var m := WithGrant(l, id, op);
    if day == id.day && v == op.visitor {
      assert VisitorGrantsOn(m, day, v) == VisitorGrantsOn(l, day, v) + {id};
    } else {
      assert VisitorGrantsOn(m, day, v) == VisitorGrantsOn(l, day, v);
    }
  }

  lemma GrantIpOk(l: Ledger, id: OpId, op: Operation, day: int, i: string)
    requires id.GrantId? && id !in l.operations && IpOk(l, day, i)
    requires Count(QuotaOn(l, id.day).ips, op.ip) < IP_DAILY_GRANTS
    ensures IpOk(WithGrant(l, id, op), day, i)
  {
    var m := WithGrant(l, id, op);
    if day == id.day && i == op.ip {
      assert IpGrantsOn(m, day, i) == IpGrantsOn(l, day, i) + {id};
    } else {
      assert IpGrantsOn(m, day, i) == IpGrantsOn(l, day, i);
    }
  }

  lemma GrantDayOk(l: Ledger, id: OpId, op: Operation, day: int)
    requires id.GrantId? && id !in l.operations && DayOk(l, day)
    requires QuotaOn(l, id.day).grants < FAUCET_DAILY_GRANTS
    requires Count(QuotaOn(l, id.day).visitors, op.visitor) < VISITOR_DAILY_GRANTS
    requires Count(QuotaOn(l, id.day).ips, op.ip) < IP_DAILY_GRANTS
    ensures DayOk(WithGrant(l, id, op), day)
  {
    var m := WithGrant(l, id, op);
    if day == id.day {
      assert GrantsOn(m, day) == GrantsOn(l, day) + {id};
    } else {
      assert GrantsOn(m, day) == GrantsOn(l, day);
    }
    forall v ensures VisitorOk(m, day, v) { GrantVisitorOk(l, id, op, day, v); }
    forall i ensures IpOk(m, day, i) { GrantIpOk(l, id, op, day, i); }
  }

  lemma GrantBudget(l: Ledger, id: OpId, op: Operation)
    requires id.GrantId? && id !in l.operations && BudgetOk(l)
    requires l.faucetLifetime + FAUCET_RESERVATION <= FAUCET_LIFETIME
    ensures BudgetOk(WithGrant(l, id, op))
  {
    var m := WithGrant(l, id, op);
    assert OfKind(m, Faucet) == OfKind(l, Faucet) + {id};
    assert OfKind(m, Observation) == OfKind(l, Observation);
  }

  lemma ObservationCounts(l: Ledger, m: Ledger, id: OpId)
    requires CountsInv(l) && id.ObservationId? && id !in l.operations && id in m.operations
    requires m.operations == l.operations[id := m.operations[id]] && m.daily == l.daily
    requires m.faucetLifetime == l.faucetLifetime
    requires m.observationLifetime == l.observationLifetime + OBSERVATION_RESERVATION <= OBSERVATION_LIFETIME
    ensures CountsInv(m)
  {
    assert OfKind(m, Observation) == OfKind(l, Observation) + {id};
    assert OfKind(m, Faucet) == OfKind(l, Faucet);
    DaysCarryOver(l, m);
  }

  /** Adding a reserved record keeps the records; leases may not change. */
  lemma RecordAdded(l: Ledger, m: Ledger, id: OpId)
    requires RecordsInv(l)
    requires m.leases == l.leases && m.nextFence == l.nextFence
    requires id !in l.operations && id in m.operations && m.operations - {id} == l.operations
    requires RecordOk(m, id)
    ensures RecordsInv(m) && Progress(l, m)
  {
    assert forall x | x in l.operations :: x in m.operations - {id};
    forall x | x in m.operations ensures RecordOk(m, x) { if x != id { assert RecordOk(l, x); } }
    forall k | k in m.leases ensures LeaseOk(m, k) { assert LeaseOk(l, k); }
  }

  /** Rewriting one record within the progress rules keeps the records, if its lease agrees. */
  lemma RecordChanged(l: Ledger, m: Ledger, id: OpId)
    requires RecordsInv(l) && id in l.operations && id in m.operations
    requires m.operations == l.operations[id := m.operations[id]]
    requires l.nextFence <= m.nextFence
    requires RecordOk(m, id) && OpProgress(l.operations[id], m.operations[id])
    requires forall k | k in m.leases ::
      (k in l.leases && m.leases[k] == l.leases[k]) || (m.leases[k].opId == id && LeaseOk(m, k))
    requires m.operations[id].fence == l.operations[id].fence || KindOf(id) !in m.leases || LeaseOk(m, KindOf(id))
    ensures RecordsInv(m) && Progress(l, m)
  {
    forall x | x in m.operations ensures RecordOk(m, x) { assert RecordOk(l, x); }
    forall k | k in m.leases ensures LeaseOk(m, k) {
      if k in l.leases && m.leases[k] == l.leases[k] { assert LeaseOk(l, k); }
    }
  }

  lemma NewGrantCounts(l: Ledger, owner: string, asset: string, visitor: string, ip: string, day: int, at: int)
    requires CountsInv(l) && ReserveGrant(l, owner, asset, visitor, ip, day, at).Ok? && GrantId(owner, asset, day) !in l.operations
    ensures CountsInv(ReserveGrant(l, owner, asset, visitor, ip, day, at).value)
  {
    var m, id := ReserveGrant(l, owner, asset, visitor, ip, day, at).value, GrantId(owner, asset, day);
    var op := m.operations[id];
    assert m == WithGrant(l, id, op);
    GrantBudget(l, id, op);
    forall d ensures DayOk(m, d) { assert DayOk(l, d) && DayOk(l, day); GrantDayOk(l, id, op, d); }
  }

  lemma ReserveGrantKeeps(l: Ledger, owner: string, asset: string, visitor: string, ip: string, day: int, at: int)
    requires Inv(l)
    ensures var r := ReserveGrant(l, owner, asset, visitor, ip, day, at);
      r.Ok? ==> Inv(r.value) && Progress(l, r.value) && GrantId(owner, asset, day) in r.value.operations && r.value.leases == l.leases
  {
    var r := ReserveGrant(l, owner, asset, visitor, ip, day, at);
    var id := GrantId(owner, asset, day);
    if r.Ok? {
      if id in l.operations {
        CountsCarryOver(l, r.value);
        RecordChanged(l, r.value, id) by { assert RecordOk(l, id); }
      } else {
        NewGrantCounts(l, owner, asset, visitor, ip, day, at);
        RecordAdded(l, r.value, id);
      }
    }
  }

  lemma ReserveObservationKeeps(l: Ledger, asset: string, bucket: int, at: int)
    requires Inv(l)
    ensures var r := ReserveObservation(l, asset, bucket, at);
      r.Ok? ==> Inv(r.value) && Progress(l, r.value) && ObservationId(asset, bucket) in r.value.operations && r.value.leases == l.leases
  {
    var r := ReserveObservation(l, asset, bucket, at);
    var id := ObservationId(asset, bucket);
    if r.Ok? {
      var m := r.value;
      if id in l.operations {
        CountsCarryOver(l, m);
        RecordChanged(l, m, id) by { assert RecordOk(l, id); }
      } else {
        ObservationCounts(l, m, id);
        RecordAdded(l, m, id);
      }
    }
  }

  lemma AcquireCounts(l: Ledger, id: OpId, snapshot: Operation, holder: nat, now: int)
    requires CountsInv(l) && Acquire(l, id, snapshot, holder, now).Ok?
    ensures CountsInv(Acquire(l, id, snapshot, holder, now).value)
  {
    CountsCarryOver(l, Acquire(l, id, snapshot, holder, now).value);
  }

  lemma AcquireRecords(l: Ledger, id: OpId, snapshot: Operation, holder: nat, now: int)
    requires RecordsInv(l) && snapshot.kind == KindOf(id) && Acquire(l, id, snapshot, holder, now).Ok?
    ensures var m := Acquire(l, id, snapshot, holder, now).value; RecordsInv(m) && Progress(l, m)
  {
    var m := Acquire(l, id, snapshot, holder, now).value;
    assert RecordOk(l, id);
    assert LeaseOk(m, KindOf(id));
    RecordChanged(l, m, id);
  }

  lemma AcquireKeeps(l: Ledger, id: OpId, snapshot: Operation, holder: nat, now: int)
    requires Inv(l) && snapshot.kind == KindOf(id)
    ensures var r := Acquire(l, id, snapshot, holder, now);
      r.Ok? ==> Inv(r.value) && Progress(l, r.value) && r.value.nextFence == l.nextFence + 1
                && r.value.leases == l.leases[snapshot.kind := Lease(id, holder, l.nextFence + 1, now + PREPARATION_LEASE_MS)]
                && r.value.operations.Keys == l.operations.Keys
                && forall x | x in l.operations ::
                     r.value.operations[x].state == l.operations[x].state && r.value.operations[x].attempt == l.operations[x].attempt
  {
    var r := Acquire(l, id, snapshot, holder, now);
    if r.Ok? {
      AcquireCounts(l, id, snapshot, holder, now);
      AcquireRecords(l, id, snapshot, holder, now);
    }
  }

  lemma PersistPreparedKeeps(l: Ledger, id: OpId, lease: Lease, attempt: Attempt, now: int)
    requires Inv(l) && attempt.signature.payer == KindOf(id)
    ensures var r := PersistPrepared(l, id, lease, attempt, now);
      r.Ok? ==> Inv(r.value) && Progress(l, r.value) && r.value.leases == l.leases
                && l.operations[id].attempt.None? && r.value.operations[id].attempt == Some(attempt)
  {
    var r := PersistPrepared(l, id, lease, attempt, now);
    if r.Ok? {
      CountsCarryOver(l, r.value);
      assert RecordOk(l, id) && LeaseOk(l, KindOf(id));
      RecordChanged(l, r.value, id);
    }
  }

  lemma TransitionKeeps(l: Ledger, id: OpId, state: OpState, errorCode: Option<string>, now: int)
    requires Inv(l)
    ensures var r := Transition(l, id, state, errorCode, now);
      r.Ok? ==> Inv(r.value) && Progress(l, r.value) && r.value.leases == l.leases && r.value.nextFence == l.nextFence
                && id in l.operations && id in r.value.operations && r.value.operations[id].attempt == l.operations[id].attempt
                && r.value.operations - {id} == l.operations - {id}
                && (r.value.operations[id].state == l.operations[id].state
                    || (r.value.operations[id].state == state && l.operations[id].attempt.Some?))
  {
    var r := Transition(l, id, state, errorCode, now);
    if r.Ok? {
      CountsCarryOver(l, r.value);
      assert RecordOk(l, id);
      RecordChanged(l, r.value, id);
    }
  }

  /** `release` takes any target state. It keeps the journal's promises exactly when, in case it writes a
      state at all, the target does not lie before the state already recorded. */
  lemma ReleaseKeepsIff(l: Ledger, lease: Lease, state: Option<OpState>, errorCode: Option<string>, now: int)
    requires Inv(l)
    requires Release(l, lease, state, errorCode, now).Ok?
    ensures var m := Release(l, lease, state, errorCode, now).value; var op := l.operations[lease.opId];
      (Inv(m) && Progress(l, m)) <==> (state.None? || Terminal(op.state) || Rank(op.state) <= Rank(state.value))
    ensures var m := Release(l, lease, state, errorCode, now).value;
      forall k | k in m.leases :: (k in l.leases && m.leases[k] == l.leases[k])
  {
    var m := Release(l, lease, state, errorCode, now).value;
    var op := l.operations[lease.opId];
    assert RecordOk(l, lease.opId);
    if state.None? || Terminal(op.state) || Rank(op.state) <= Rank(state.value) {
      CountsCarryOver(l, m);
      RecordChanged(l, m, lease.opId);
    } else {
      assert m.operations[lease.opId].state == state.value;
      assert !OpProgress(op, m.operations[lease.opId]);
    }
  }

  /** A concrete ledger on which `release(lease, 'reserved')` forgets that a signed attempt exists. */
  lemma ReleaseCanForgetAnAttempt()
    ensures exists l, lease ::
      && Inv(l) && Release(l, lease, Some(Reserved), None, 0).Ok?
      && !Inv(Release(l, lease, Some(Reserved), None, 0).value)
  {
    var id := ObservationId("asset", 0);
    var lease := Lease(id, 1, 1, 10);
    var attempt := Attempt(Signature(Observation, 7), 1, "");
    var op := Operation(Observation, Prepared, OBSERVATION_RESERVATION, 0, "", "", Some(1), Some(attempt), None, None, None);
    var l0 := EmptyLedger();
    EmptyLedgerOk();
    ReserveObservationKeeps(l0, "asset", 0, 0);
    var l1 := ReserveObservation(l0, "asset", 0, 0).value;
    AcquireKeeps(l1, id, l1.operations[id], 1, 10 - PREPARATION_LEASE_MS);
    var l2 := Acquire(l1, id, l1.operations[id], 1, 10 - PREPARATION_LEASE_MS).value;
    PersistPreparedKeeps(l2, id, lease, attempt, 0);
    var l3 := PersistPrepared(l2, id, lease, attempt, 0).value;
    assert l3.operations[id] == op && l3.leases[Observation] == lease;
    var m := Release(l3, lease, Some(Reserved), None, 0).value;
    assert !RecordOk(m, id);
  }

  lemma DisableKeeps(l: Ledger, reason: string)
    requires Inv(l)
    ensures Inv(DisableFaucet(l, reason)) && Progress(l, DisableFaucet(l, reason))
  {
    var m := DisableFaucet(l, reason);
    CountsCarryOver(l, m);
    forall x | x in m.operations ensures RecordOk(m, x) { assert RecordOk(l, x); }
    forall k | k in m.leases ensures LeaseOk(m, k) { assert LeaseOk(l, k); }
  }

  lemma ProgressTransitive(a: Ledger, b: Ledger, c: Ledger)
    requires Progress(a, b) && Progress(b, c)
    ensures Progress(a, c)
  {
    forall id | id in a.operations ensures id in c.operations && OpProgress(a.operations[id], c.operations[id]) {
      assert OpProgress(a.operations[id], b.operations[id]);
      assert OpProgress(b.operations[id], c.operations[id]);
    }
  }
}
