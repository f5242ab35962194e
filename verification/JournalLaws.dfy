/**
 When each call of the faucet journal goes through, in terms of the operations it holds and the limits of contract.ts;
 and over runs of the workers, how long a lease excludes others and what a disabled faucet refuses.
 */
module JournalLaws {
  import opened Prelude
  import opened Journal
  import opened JournalProtocol

  // ----- single calls -----

  /** Another grant of the day stays within the global, visitor, address and lifetime limits. */
  ghost predicate GrantRoom(l: Ledger, visitor: string, ip: string, day: int)
  {
    |GrantsOn(l, day)| < 30 && |VisitorGrantsOn(l, day, visitor)| < 3 && |IpGrantsOn(l, day, ip)| < 12
    && 9_000_000 * (|OfKind(l, Faucet)| + 1) <= 1_000_000_000
  }

  /** A grant is reserved exactly when the faucet is enabled and it exists already or every limit leaves room. */
  lemma GrantOkIff(l: Ledger, owner: string, asset: string, visitor: string, ip: string, day: int, at: int)
    requires Inv(l)
    ensures ReserveGrant(l, owner, asset, visitor, ip, day, at) == Err(FaucetDisabled) <==> l.disabledReason.Some?
    ensures ReserveGrant(l, owner, asset, visitor, ip, day, at).Ok? <==>
      l.disabledReason.None? && (GrantId(owner, asset, day) in l.operations || GrantRoom(l, visitor, ip, day))
    ensures var r := ReserveGrant(l, owner, asset, visitor, ip, day, at); var id := GrantId(owner, asset, day);
      r.Ok? && id in l.operations ==> r.value.operations == l.operations
    ensures var r := ReserveGrant(l, owner, asset, visitor, ip, day, at); var id := GrantId(owner, asset, day);
      r.Ok? && id !in l.operations ==>
        && id in r.value.operations && r.value.operations - {id} == l.operations
        && var op := r.value.operations[id];
           op.state.Reserved? && op.reservation == 9_000_000 && op.visitor == visitor && op.ip == ip && op.createdAt == at
  {
    assert DayOk(l, day);
    assert VisitorOk(l, day, visitor) && IpOk(l, day, ip);
  }

  /** An observation is reserved exactly when it exists already or the lifetime budget leaves room for one more. */
  lemma ObservationOkIff(l: Ledger, asset: string, bucket: int, at: int)
    requires Inv(l)
    ensures ReserveObservation(l, asset, bucket, at).Ok? <==>
      ObservationId(asset, bucket) in l.operations || 10_000 * (|OfKind(l, Observation)| + 1) <= 10_000_000
    ensures var r := ReserveObservation(l, asset, bucket, at); var id := ObservationId(asset, bucket);
      r.Ok? && id !in l.operations ==>
        && id in r.value.operations && r.value.operations - {id} == l.operations
        && var op := r.value.operations[id]; op.state.Reserved? && op.reservation == 10_000 && op.createdAt == at
  {
  }

  predicate Live(state: OpState) { state.Reserved? || state.Prepared? || state.Submitted? }

  /** Somebody holds the lease of a kind at a time. */
  predicate Held(l: Ledger, kind: Kind, now: int)
  {
    kind in l.leases && l.leases[kind].expiresAt > now
  }

  /** A lease is granted exactly when snapshot and record are active and nobody holds a live one; it lives for 45 seconds. */
  lemma AcquireOkIff(l: Ledger, id: OpId, snapshot: Operation, holder: nat, now: int)
    ensures var r := Acquire(l, id, snapshot, holder, now);
      && (r.Ok? <==> Live(snapshot.state) && id in l.operations && Live(l.operations[id].state) && !Held(l, snapshot.kind, now))
      && (r == Err(LeaseBusy) <==> Live(snapshot.state) && id in l.operations && Live(l.operations[id].state) && Held(l, snapshot.kind, now))
      && (r.Ok? ==> snapshot.kind in r.value.leases && r.value.leases[snapshot.kind] == Lease(id, holder, l.nextFence + 1, now + 45_000)
                    && r.value.leases - {snapshot.kind} == l.leases - {snapshot.kind})
  {
  }

  /** The caller's lease is the one held, and it has not expired. */
  predicate Mine(l: Ledger, id: OpId, lease: Lease, now: int)
    requires id in l.operations
  {
    var kind := l.operations[id].kind;
    kind in l.leases && l.leases[kind].opId == id && l.leases[kind].holder == lease.holder && l.leases[kind].fence == lease.fence
    && now < l.leases[kind].expiresAt
  }

  /** Only the unexpired lease of a reserved operation writes its attempt, and writes exactly that. */
  lemma PersistOkIff(l: Ledger, id: OpId, lease: Lease, attempt: Attempt, now: int)
    ensures var r := PersistPrepared(l, id, lease, attempt, now);
      && (r.Ok? <==> id in l.operations && l.operations[id].state.Reserved? && Mine(l, id, lease, now))
      && (r.Ok? ==> id in r.value.operations && r.value.operations[id].state.Prepared? && r.value.operations[id].attempt == Some(attempt)
                    && r.value.operations[id].fence == Some(lease.fence) && r.value.operations - {id} == l.operations - {id}
                    && r.value.leases == l.leases)
  {
  }

  /** The send fence holds exactly for the unexpired lease whose fence the prepared or submitted operation carries. */
  lemma SendFenceIff(l: Ledger, id: OpId, lease: Lease, now: int)
    ensures SendFence(l, id, lease, now) <==>
      && id in l.operations && (l.operations[id].state.Prepared? || l.operations[id].state.Submitted?)
      && l.operations[id].fence == Some(lease.fence) && Mine(l, id, lease, now)
  {
  }

  /** A release writes a state exactly under its own unexpired lease and fence; it clears its own lease and no other. */
  lemma ReleaseOkIff(l: Ledger, lease: Lease, state: Option<OpState>, errorCode: Option<string>, now: int)
    requires lease.opId in l.operations
    ensures var op := l.operations[lease.opId];
      Release(l, lease, state, errorCode, now).Ok? <==>
      state.None? || !Live(op.state) || (Mine(l, lease.opId, lease, now) && op.fence == Some(lease.fence) && !op.state.Reserved?)
    ensures var r := Release(l, lease, state, errorCode, now); var kind := l.operations[lease.opId].kind;
      r.Ok? ==>
        r.value.leases == if kind in l.leases && l.leases[kind].opId == lease.opId && l.leases[kind].holder == lease.holder
                             && l.leases[kind].fence == lease.fence then l.leases - {kind} else l.leases
    ensures var r := Release(l, lease, state, errorCode, now); var op := l.operations[lease.opId];
      r.Ok? ==>
        && lease.opId in r.value.operations && r.value.operations - {lease.opId} == l.operations - {lease.opId}
        && var after := r.value.operations[lease.opId];
           if state.None? || !Live(op.state) then after == op
           else after.state == state.value && after.errorCode == errorCode && after.attempt == op.attempt && after.fence == op.fence
                && (state.value.Submitted? ==> after.submittedAt == Some(now)) && (!Live(state.value) ==> after.completedAt == Some(now))
  {
  }

  /** A verdict is written exactly into an active operation with an attempt, and never moves it back before submission. */
  lemma TransitionOkIff(l: Ledger, id: OpId, state: OpState, errorCode: Option<string>, now: int)
    ensures Transition(l, id, state, errorCode, now).Ok? <==>
      id in l.operations && (!Live(l.operations[id].state) || (l.operations[id].attempt.Some? && !state.Reserved? && !state.Prepared?))
    ensures var r := Transition(l, id, state, errorCode, now);
      r.Ok? ==>
        && id in r.value.operations && r.value.operations - {id} == l.operations - {id} && r.value.leases == l.leases
        && var op, after := l.operations[id], r.value.operations[id];
           if !Live(op.state) then after == op
           else after.state == state && after.errorCode == errorCode && after.attempt == op.attempt && after.fence == op.fence
                && (!Live(state) ==> after.completedAt == Some(now)) && (state.Submitted? ==> after.submittedAt.Some?)
                && (op.submittedAt.Some? ==> after.submittedAt == op.submittedAt)
  {
  }

  /** What each error says is so. */
  lemma GrantErrors(l: Ledger, owner: string, asset: string, visitor: string, ip: string, day: int, at: int)
    requires Inv(l) && ReserveGrant(l, owner, asset, visitor, ip, day, at).Err?
    ensures match ReserveGrant(l, owner, asset, visitor, ip, day, at).error
      case FaucetDisabled => l.disabledReason.Some?
      case GlobalQuota => |GrantsOn(l, day)| >= 30 || 9_000_000 * (|OfKind(l, Faucet)| + 1) > 1_000_000_000
      case VisitorQuota => |VisitorGrantsOn(l, day, visitor)| >= 3
      case IpQuota => |IpGrantsOn(l, day, ip)| >= 12
      case _ => false
  {
    assert DayOk(l, day);
    assert VisitorOk(l, day, visitor) && IpOk(l, day, ip);
  }

  lemma LeaseErrors(l: Ledger, id: OpId, snapshot: Operation, lease: Lease, attempt: Attempt, state: Option<OpState>, verdict: OpState, errorCode: Option<string>, holder: nat, now: int)
    ensures Acquire(l, id, snapshot, holder, now) == Err(OperationState) ==> !Live(snapshot.state) || id !in l.operations || !Live(l.operations[id].state)
    ensures PersistPrepared(l, id, lease, attempt, now) == Err(OperationState) ==> id !in l.operations || !l.operations[id].state.Reserved?
    ensures PersistPrepared(l, id, lease, attempt, now) == Err(LeaseLost) ==> id in l.operations && !Mine(l, id, lease, now)
    ensures Release(l, lease, state, errorCode, now) == Err(OperationState) ==> lease.opId !in l.operations || l.operations[lease.opId].state.Reserved?
    ensures Release(l, lease, state, errorCode, now) == Err(LeaseLost) ==>
      lease.opId in l.operations && (!Mine(l, lease.opId, lease, now) || l.operations[lease.opId].fence != Some(lease.fence))
    ensures var e := Acquire(l, id, snapshot, holder, now); e.Err? ==> e.error.OperationState? || e.error.LeaseBusy?
    ensures var e := PersistPrepared(l, id, lease, attempt, now); e.Err? ==> e.error.OperationState? || e.error.LeaseLost?
    ensures var e := Release(l, lease, state, errorCode, now); e.Err? ==> e.error.OperationState? || e.error.LeaseLost?
    ensures var e := Transition(l, id, verdict, errorCode, now); e.Err? ==> e.error.OperationState?
  {
  }

  // ----- leases over runs -----

  /** The lease a worker carries. */
  function Carried(pc: Worker): Option<Lease>
  {
    match pc
    case Idle => None
    case Holding(_, _, _) => None
    case Erring(lease) => Some(lease)
    case _ => Some(pc.lease)
  }

  /** The step is the release by the worker that holds this very lease. */
  predicate ReleasedBy(s: System, t: Step, lease: Lease)
  {
    (t.Finish? || t.Abort?) && Carried(At(s, t.w)).Some?
    && var mine := Carried(At(s, t.w)).value;
       mine.opId == lease.opId && mine.holder == lease.holder && mine.fence == lease.fence
  }

  /** The step may end the lease: its owner releases it, or it is acquired when it has expired. */
  predicate MayEnd(s: System, t: Step, lease: Lease)
  {
    ReleasedBy(s, t, lease) || (t.TakeLease? && lease.expiresAt <= t.now)
  }

  lemma TakeLeaseUnderLive(s: System, t: Step, kind: Kind)
    requires SysInv(s) && t.TakeLease? && Held(s.ledger, kind, t.now)
    ensures var u := Apply(s, t);
      kind in u.ledger.leases && u.ledger.leases[kind] == s.ledger.leases[kind]
      && forall i | |s.issued| <= i < |u.issued| :: KindOf(u.issued[i].opId) != kind
  {
    var pc := At(s, t.w);
    if pc.Holding? { assert WorkerOk(s, pc); AcquireOkIff(s.ledger, pc.id, pc.op, t.holder, t.now); }
  }

  lemma ReleaseLeaves(l: Ledger, lease: Lease, state: Option<OpState>, errorCode: Option<string>, now: int, kind: Kind)
    requires kind in l.leases
    requires !(l.leases[kind].opId == lease.opId && l.leases[kind].holder == lease.holder && l.leases[kind].fence == lease.fence)
    ensures var r := Release(l, lease, state, errorCode, now);
      r.Ok? ==> kind in r.value.leases && r.value.leases[kind] == l.leases[kind]
  {
  }

  lemma ReleaseUnderLive(s: System, t: Step, kind: Kind)
    requires (t.Finish? || t.Abort?) && kind in s.ledger.leases && !ReleasedBy(s, t, s.ledger.leases[kind])
    ensures var u := Apply(s, t);
      kind in u.ledger.leases && u.ledger.leases[kind] == s.ledger.leases[kind] && u.issued == s.issued
  {
    var pc := At(s, t.w);
    if t.Finish? && pc.Sent? {
      ReleaseLeaves(s.ledger, pc.lease, Some(pc.target), t.errorCode, t.now, kind);
    } else if t.Abort? && pc.Erring? {
      ReleaseLeaves(s.ledger, pc.lease, None, None, t.now, kind);
    }
  }

  lemma OthersLeaveLeases(s: System, t: Step)
    requires !t.TakeLease? && !t.Finish? && !t.Abort?
    ensures Apply(s, t).ledger.leases == s.ledger.leases && Apply(s, t).issued == s.issued
  {
  }

  /** A lease stays in the ledger, and no other of its kind is issued, until its owner releases it or it is acquired anew after expiring. */
  lemma LeaseStays(s: System, t: Step, kind: Kind)
    requires SysInv(s) && kind in s.ledger.leases && !MayEnd(s, t, s.ledger.leases[kind])
    ensures var u := Apply(s, t);
      kind in u.ledger.leases && u.ledger.leases[kind] == s.ledger.leases[kind]
      && s.issued <= u.issued && forall i | |s.issued| <= i < |u.issued| :: KindOf(u.issued[i].opId) != kind
  {
    if t.TakeLease? { TakeLeaseUnderLive(s, t, kind); }
    else if t.Finish? || t.Abort? { ReleaseUnderLive(s, t, kind); }
    else { OthersLeaveLeases(s, t); }
  }

  /** Along the steps nothing may end the lease. */
  predicate Undisturbed(s: System, steps: seq<Step>, lease: Lease)
    decreases |steps|
  {
    steps == [] || (!MayEnd(s, steps[0], lease) && Undisturbed(Apply(s, steps[0]), steps[1..], lease))
  }

  lemma {:induction false} LeaseStaysAlong(s: System, steps: seq<Step>, kind: Kind)
    requires SysInv(s) && kind in s.ledger.leases && Undisturbed(s, steps, s.ledger.leases[kind])
    ensures var u := Run(s, steps);
      kind in u.ledger.leases && u.ledger.leases[kind] == s.ledger.leases[kind]
      && s.issued <= u.issued && forall i | |s.issued| <= i < |u.issued| :: KindOf(u.issued[i].opId) != kind
    decreases |steps|
  {
    if steps != [] {
      var m := Apply(s, steps[0]);
      LeaseStays(s, steps[0], kind);
      ApplyKeeps(s, steps[0]);
      LeaseStaysAlong(m, steps[1..], kind);
    }
  }

  /**
   Leases exclude: in every run, from any moment at which a lease of a kind is held, as long as its owner does not
   release it and nobody tries to acquire after its expiry, it stays and no second lease of the kind is issued.
   */
  lemma LeaseExcludesOthers(steps: seq<Step>, later: seq<Step>, kind: Kind)
    requires var s := Run(Start(), steps); kind in s.ledger.leases && Undisturbed(s, later, s.ledger.leases[kind])
    ensures var s := Run(Start(), steps); var u := Run(s, later);
      kind in u.ledger.leases && u.ledger.leases[kind] == s.ledger.leases[kind]
      && s.issued <= u.issued && forall i | |s.issued| <= i < |u.issued| :: KindOf(u.issued[i].opId) != kind
  {
    StartOk();
    RunKeeps(Start(), steps);
    LeaseStaysAlong(Run(Start(), steps), later, kind);
  }

  /** And they are to be had: a worker with an active operation gets the lease when none of its kind is live. */
  lemma FreeLeaseIsGranted(s: System, w: nat, holder: nat, now: int)
    requires SysInv(s) && At(s, w).Holding? && At(s, w).mayAcquire && Live(At(s, w).op.state)
    requires Live(s.ledger.operations[At(s, w).id].state) && !Held(s.ledger, KindOf(At(s, w).id), now)
    ensures var u := Apply(s, TakeLease(w, holder, now, true)); var id := At(s, w).id;
      var lease := Lease(id, holder, s.ledger.nextFence + 1, now + 45_000);
      u.issued == s.issued + [lease] && KindOf(id) in u.ledger.leases && u.ledger.leases[KindOf(id)] == lease
      && At(u, w) == Leased(id, At(s, w).op, lease)
  {
    var pc := At(s, w);
    assert WorkerOk(s, pc);
    AcquireOkIff(s.ledger, pc.id, pc.op, holder, now);
  }

  // ----- sends and the disabled faucet over runs -----

  /** An attempt is sent only by a worker whose last check of the ledger passed the send fence with that attempt. */
  lemma SendsFollowFence(s: System, t: Step)
    ensures Apply(s, t).sent != s.sent ==>
      t.Send? && At(s, t.w).Fenced? && At(s, t.w).op.attempt.Some?
      && Apply(s, t).sent == s.sent + {(At(s, t.w).id, At(s, t.w).op.attempt.value)}
    ensures forall w | At(Apply(s, t), w).Fenced? && !At(s, w).Fenced? ::
      t.CheckFence? && t.w == w && At(Apply(s, t), w).id == At(s, w).id && SendFence(s.ledger, At(s, w).id, At(s, w).lease, t.now)
  {
  }

  /** A send that came back with another signature is released as failed, every other as submitted. */
  lemma SendDecidesTarget(s: System, w: nat, mismatch: bool)
    requires At(s, w).Fenced? && At(s, w).op.attempt.Some?
    ensures var pc, after := At(s, w), At(Apply(s, Send(w, mismatch)), w);
      after == Sent(pc.id, pc.op, pc.lease, if mismatch then OpState.Failed else OpState.Submitted)
  {
  }

  /** A worker that has released its lease only reconciles: it does not acquire again. */
  lemma ReleasedDoesNotAcquire(s: System, w: nat, errorCode: Option<string>, holder: nat, now: int, later: int)
    requires At(s, w).Sent?
    ensures var u := Apply(s, Finish(w, errorCode, now, true));
      Apply(u, TakeLease(w, holder, later, true)) == u
  {
  }

  lemma LeasedStepsAddNothing(s: System, t: Step)
    requires t.TakeLease? || t.Persist? || t.Finish? || t.Abort? || t.Reconcile?
    ensures var u := Apply(s, t);
      u.ledger.operations.Keys == s.ledger.operations.Keys && u.ledger.disabledReason == s.ledger.disabledReason
  {
  }

  lemma DisabledStep(s: System, t: Step)
    requires s.ledger.disabledReason.Some?
    ensures var u := Apply(s, t);
      u.ledger.disabledReason == s.ledger.disabledReason && OfKind(u.ledger, Faucet) == OfKind(s.ledger, Faucet)
  {
    if t.TakeLease? || t.Persist? || t.Finish? || t.Abort? || t.Reconcile? { LeasedStepsAddNothing(s, t); }
  }

  /** Once the faucet is disabled no run reserves another grant, and the first reason stays. */
  lemma {:induction false} DisabledForGood(s: System, steps: seq<Step>)
    requires s.ledger.disabledReason.Some?
    ensures var u := Run(s, steps);
      u.ledger.disabledReason == s.ledger.disabledReason && OfKind(u.ledger, Faucet) == OfKind(s.ledger, Faucet)
    decreases |steps|
  {
    if steps != [] {
      DisabledStep(s, steps[0]);
      DisabledForGood(Apply(s, steps[0]), steps[1..]);
    }
  }
}
