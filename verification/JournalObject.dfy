/**
 The journal object (packages/hosted-devnet/src/ledger.ts, class DurableJournal): each method changes
 the ledger fields in place, as the callbacks of the swap loop do, and is proved to compute the
 corresponding function of module Journal. A throw leaves every field as it was.
 What the functions keep is proved there, for every ledger.
 */
module JournalObject {
  import opened Prelude
  import opened Journal

  class DurableJournal {
    var revision: nat
    var nextFence: nat
    var disabledReason: Option<string>
    var faucetLifetime: nat
    var observationLifetime: nat
    var daily: map<int, Quota>
    var leases: map<Kind, Lease>
    var operations: map<OpId, Operation>

    ghost function View(): Ledger
      reads this
    {
      Ledger(revision, nextFence, disabledReason, faucetLifetime, observationLifetime, daily, leases, operations)
    }

    constructor ()
      ensures View() == EmptyLedger()
    {
      revision, nextFence, disabledReason, faucetLifetime, observationLifetime := 0, 0, None, 0, 0;
      daily, leases, operations := map[], map[], map[];
    }

    method ReserveGrant(owner: string, asset: string, visitor: string, ip: string, now: int) returns (r: Result<Operation, Error>)
      modifies this
      ensures var spec := Journal.ReserveGrant(old(View()), owner, asset, visitor, ip, now / 86_400_000, now);
        if spec.Ok? then View() == spec.value && GrantId(owner, asset, now / 86_400_000) in operations
                         && r == Ok(operations[GrantId(owner, asset, now / 86_400_000)])
        else r == Err(spec.error) && View() == old(View())
    {
      var day := now / 86_400_000;
      var id := GrantId(owner, asset, day);
      if disabledReason.Some? { return Err(FaucetDisabled); }
      if id !in operations {
        var quota := if day in daily then daily[day] else Quota(0, 0, map[], map[]);
        if quota.grants >= FAUCET_DAILY_GRANTS || quota.lamports + FAUCET_RESERVATION > FAUCET_DAILY
           || faucetLifetime + FAUCET_RESERVATION > FAUCET_LIFETIME { return Err(GlobalQuota); }
        if Count(quota.visitors, visitor) >= VISITOR_DAILY_GRANTS { return Err(VisitorQuota); }
        if Count(quota.ips, ip) >= IP_DAILY_GRANTS { return Err(IpQuota); }
        quota := quota.(grants := quota.grants + 1, lamports := quota.lamports + FAUCET_RESERVATION);
        quota := quota.(visitors := quota.visitors[visitor := Count(quota.visitors, visitor) + 1]);
        quota := quota.(ips := quota.ips[ip := Count(quota.ips, ip) + 1]);
        daily := daily[day := quota];
        faucetLifetime := faucetLifetime + FAUCET_RESERVATION;
        operations := operations[id := Operation(Faucet, Reserved, FAUCET_RESERVATION, now, visitor, ip, None, None, None, None, None)];
      }
      revision := revision + 1;
      return Ok(operations[id]);
    }

    method ReserveObservation(asset: string, now: int) returns (r: Result<Operation, Error>)
      modifies this
      ensures var spec := Journal.ReserveObservation(old(View()), asset, now / 21_600_000, now);
        if spec.Ok? then View() == spec.value && ObservationId(asset, now / 21_600_000) in operations
                         && r == Ok(operations[ObservationId(asset, now / 21_600_000)])
        else r == Err(spec.error) && View() == old(View())
    {
      var bucket := now / 21_600_000;
      var id := ObservationId(asset, bucket);
      if id !in operations {
        if observationLifetime + OBSERVATION_RESERVATION > OBSERVATION_LIFETIME { return Err(ObservationBudget); }
        observationLifetime := observationLifetime + OBSERVATION_RESERVATION;
        operations := operations[id := Operation(Observation, Reserved, OBSERVATION_RESERVATION, now, "", "", None, None, None, None, None)];
      }
      revision := revision + 1;
      return Ok(operations[id]);
    }

    method Acquire(id: OpId, snapshot: Operation, holder: nat, now: int) returns (r: Result<Lease, Error>)
      modifies this
      ensures var spec := Journal.Acquire(old(View()), id, snapshot, holder, now);
        if spec.Ok? then View() == spec.value && snapshot.kind in leases && r == Ok(leases[snapshot.kind]) && r.value.fence > old(nextFence)
        else r == Err(spec.error) && View() == old(View())
    {
      if !Active(snapshot.state) { return Err(OperationState); }
      if id !in operations || !Active(operations[id].state) { return Err(OperationState); }
      if snapshot.kind in leases && leases[snapshot.kind].expiresAt > now { return Err(LeaseBusy); }
      nextFence := nextFence + 1;
      leases := leases[snapshot.kind := Lease(id, holder, nextFence, now + PREPARATION_LEASE_MS)];
      if !operations[id].state.Reserved? {
        operations := operations[id := operations[id].(fence := Some(nextFence))];
      }
      revision := revision + 1;
      return Ok(leases[snapshot.kind]);
    }

    method PersistPrepared(id: OpId, lease: Lease, attempt: Attempt, now: int) returns (r: Result<Operation, Error>)
      modifies this
      ensures var spec := Journal.PersistPrepared(old(View()), id, lease, attempt, now);
        if spec.Ok? then View() == spec.value && id in operations && r == Ok(operations[id])
        else r == Err(spec.error) && View() == old(View())
    {
      if id !in operations || !operations[id].state.Reserved? { return Err(OperationState); }
      var op := operations[id];
      if op.kind !in leases { return Err(LeaseLost); }
      var current := leases[op.kind];
      if current.opId != id || current.holder != lease.holder || current.fence != lease.fence || current.expiresAt <= now {
        return Err(LeaseLost);
      }
      op := op.(state := Prepared);
      op := op.(fence := Some(lease.fence));
      op := op.(attempt := Some(attempt));
      operations := operations[id := op];
      revision := revision + 1;
      return Ok(op);
    }

    method Release(lease: Lease, state: Option<OpState>, errorCode: Option<string>, now: int) returns (r: Result<Operation, Error>)
      modifies this
      ensures var spec := Journal.Release(old(View()), lease, state, errorCode, now);
        if spec.Ok? then View() == spec.value && lease.opId in operations && r == Ok(operations[lease.opId])
        else r == Err(spec.error) && View() == old(View())
    {
      if lease.opId !in operations { return Err(OperationState); }
      var op := operations[lease.opId];
      var same := op.kind in leases && leases[op.kind].opId == lease.opId && leases[op.kind].holder == lease.holder
                  && leases[op.kind].fence == lease.fence;
      var owns := same && op.fence == Some(lease.fence) && leases[op.kind].expiresAt > now;
      if state.Some? && !Terminal(op.state) {
        if !owns { return Err(LeaseLost); }
        if op.state.Reserved? { return Err(OperationState); }
        op := op.(state := state.value);
        if state.value.Submitted? { op := op.(submittedAt := Some(now)); }
        if Terminal(state.value) { op := op.(completedAt := Some(now)); }
        op := op.(errorCode := errorCode);
        operations := operations[lease.opId := op];
      }
      if same { leases := leases - {op.kind}; }
      revision := revision + 1;
      return Ok(op);
    }

    method Transition(id: OpId, state: OpState, errorCode: Option<string>, now: int) returns (r: Result<Operation, Error>)
      modifies this
      ensures var spec := Journal.Transition(old(View()), id, state, errorCode, now);
        if spec.Ok? then View() == spec.value && id in operations && r == Ok(operations[id])
        else r == Err(spec.error) && View() == old(View())
    {
      if id !in operations { return Err(OperationState); }
      var op := operations[id];
      if !Terminal(op.state) {
        if op.attempt.None? || state.Reserved? || state.Prepared? { return Err(OperationState); }
        op := op.(state := state);
        op := op.(errorCode := errorCode);
        if state.Submitted? && op.submittedAt.None? { op := op.(submittedAt := Some(now)); }
        if Terminal(state) { op := op.(completedAt := Some(now)); }
        operations := operations[id := op];
      }
      revision := revision + 1;
      return Ok(op);
    }
  }
}
