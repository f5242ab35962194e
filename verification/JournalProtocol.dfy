/**
 Any number of workers running HostedDevnetService.execute and reconcile
 (packages/hosted-devnet/src/service.ts) against one journal and one chain.

 A run is a list of steps; a step that is not enabled changes nothing. Every await of the source is
 a step boundary, so a run interleaves workers at will. A worker may crash at any boundary, a swap
 may commit although its caller sees an error (`ack` false), snapshots go stale freely, and clock
 readings are arbitrary.
 */
module JournalProtocol {
  import opened Prelude
  import opened Journal
  import Counting

  datatype Worker =
    | Idle
    | Holding(id: OpId, op: Operation, mayAcquire: bool)  // before or after the leased section
    | Leased(id: OpId, op: Operation, lease: Lease)       // lease taken, attempt perhaps missing
    | Ready(id: OpId, op: Operation, lease: Lease)        // attempt known
    | Fenced(id: OpId, op: Operation, lease: Lease)       // send fence checked
    | Sent(id: OpId, op: Operation, lease: Lease, target: OpState)
    | Erring(lease: Lease)                                // the catch block

  datatype System = System(
    ledger: Ledger,
    workers: map<nat, Worker>,
    issued: seq<Lease>,                 // every lease ever committed, in order
    sent: set<(OpId, Attempt)>,         // every attempt ever handed to the chain
    executed: map<Signature, nat>)      // signature -> lamports debited

  datatype Step =
    | Grant(w: nat, owner: string, asset: string, visitor: string, ip: string, day: int, now: int, ack: bool)
    | Observe(w: nat, asset: string, bucket: int, now: int, ack: bool)
    | Crash(w: nat)
    | Reconcile(w: nat, verdict: OpState, errorCode: Option<string>, now: int, ack: bool)
    | TakeLease(w: nat, holder: nat, now: int, ack: bool)
    | Persist(w: nat, attempt: Attempt, now: int, ack: bool)
    | SkipPrepare(w: nat)
    | CheckFence(w: nat, now: int)
    | Send(w: nat, mismatch: bool)
    | Finish(w: nat, errorCode: Option<string>, now: int, ack: bool)
    | Throw(w: nat)
    | Abort(w: nat, now: int, ack: bool)
    | Disable(reason: string)
    | Execute(id: OpId, attempt: Attempt, debit: nat)

  function Start(): System
  {
    System(EmptyLedger(), map[], [], {}, map[])
  }

  function At(s: System, w: nat): Worker
  {
    if w in s.workers then s.workers[w] else Idle
  }

  function Put(s: System, w: nat, pc: Worker): System
  {
    s.(workers := s.workers[w := pc])
  }

  /** A swap by worker w: on success the ledger moves; the caller sees that only if acknowledged. */
  function Commit(s: System, w: nat, r: Result<Ledger, Error>, ack: bool, done: Worker, failed: Worker): System
  {
    if r.Err? then Put(s, w, failed)
    else Put(s.(ledger := r.value), w, if ack then done else failed)
  }

  function GrantStep(s: System, t: Step): System
    requires t.Grant?
  {
    var r := ReserveGrant(s.ledger, t.owner, t.asset, t.visitor, t.ip, t.day, t.now);
    var id := GrantId(t.owner, t.asset, t.day);
    if !At(s, t.w).Idle? then s
    else Commit(s, t.w, r, t.ack, if r.Ok? && id in r.value.operations then Holding(id, r.value.operations[id], true) else Idle, Idle)
  }

  function ObserveStep(s: System, t: Step): System
    requires t.Observe?
  {
    var r := ReserveObservation(s.ledger, t.asset, t.bucket, t.now);
    var id := ObservationId(t.asset, t.bucket);
    if !At(s, t.w).Idle? then s
    else Commit(s, t.w, r, t.ack, if r.Ok? && id in r.value.operations then Holding(id, r.value.operations[id], true) else Idle, Idle)
  }

  /** reconcile: the verdict comes from the chain; it may say confirmed only of an executed signature. */
  function ReconcileStep(s: System, t: Step): System
    requires t.Reconcile?
  {
    var pc := At(s, t.w);
    if !pc.Holding? || Terminal(pc.op.state) || pc.op.attempt.None? || !Terminal(t.verdict)
       || (t.verdict.Confirmed? && pc.op.attempt.value.signature !in s.executed) then s
    else Commit(s, t.w, Transition(s.ledger, pc.id, t.verdict, t.errorCode, t.now), t.ack, Idle, Idle)
  }

  function TakeLeaseStep(s: System, t: Step): System
    requires t.TakeLease?
  {
    var pc := At(s, t.w);
    if !pc.Holding? || !pc.mayAcquire || Terminal(pc.op.state) then s
    else
      var r := Acquire(s.ledger, pc.id, pc.op, t.holder, t.now);
      var lease := Lease(pc.id, t.holder, s.ledger.nextFence + 1, t.now + PREPARATION_LEASE_MS);
      Commit(if r.Ok? then s.(issued := s.issued + [lease]) else s, t.w, r, t.ack, Leased(pc.id, pc.op, lease), Idle)
  }

  function PersistStep(s: System, t: Step): System
    requires t.Persist?
  {
    var pc := At(s, t.w);
    if !pc.Leased? || !pc.op.state.Reserved? || t.attempt.signature.payer != KindOf(pc.id) then s
    else
      var r := PersistPrepared(s.ledger, pc.id, pc.lease, t.attempt, t.now);
      Commit(s, t.w, r, t.ack, if r.Ok? && pc.id in r.value.operations then Ready(pc.id, r.value.operations[pc.id], pc.lease) else Idle,
             Erring(pc.lease))
  }

  function LocalStep(s: System, t: Step): System
    requires t.SkipPrepare? || t.CheckFence? || t.Throw? || t.Crash?
  {
    var pc := At(s, t.w);
    match t
    case SkipPrepare(w) => if pc.Leased? && !pc.op.state.Reserved? then Put(s, w, Ready(pc.id, pc.op, pc.lease)) else s
    case CheckFence(w, now) =>
      if !pc.Ready? then s
      else if SendFence(s.ledger, pc.id, pc.lease, now) then Put(s, w, Fenced(pc.id, pc.op, pc.lease))
      else Put(s, w, Erring(pc.lease))
    case Throw(w) => if pc.Leased? || pc.Ready? then Put(s, w, Erring(pc.lease)) else s
    case Crash(w) => Put(s, w, Idle)
  }

  /** sendExact: the call may throw, in which case the transaction may still have reached the chain. */
  function SendStep(s: System, t: Step): System
    requires t.Send?
  {
    var pc := At(s, t.w);
    if !pc.Fenced? || pc.op.attempt.None? then s
    else Put(s.(sent := s.sent + {(pc.id, pc.op.attempt.value)}), t.w,
             Sent(pc.id, pc.op, pc.lease, if t.mismatch then Failed else Submitted))
  }

  function FinishStep(s: System, t: Step): System
    requires t.Finish?
  {
    var pc := At(s, t.w);
    if !pc.Sent? then s
    else
      var r := Release(s.ledger, pc.lease, Some(pc.target), t.errorCode, t.now);
      Commit(s, t.w, r, t.ack,
             if r.Ok? && pc.lease.opId in r.value.operations then Holding(pc.lease.opId, r.value.operations[pc.lease.opId], false) else Idle,
             Idle)
  }

  function AbortStep(s: System, t: Step): System
    requires t.Abort?
  {
    var pc := At(s, t.w);
    if !pc.Erring? then s
    else Commit(s, t.w, Release(s.ledger, pc.lease, None, None, t.now), t.ack, Idle, Idle)
  }

  /** The chain executes an attempt that was sent, at most once per signature, within its reservation. */
  function ExecuteStep(s: System, t: Step): System
    requires t.Execute?
  {
    if (t.id, t.attempt) !in s.sent || t.attempt.signature in s.executed || t.debit > Reservation(KindOf(t.id)) then s
    else s.(executed := s.executed[t.attempt.signature := t.debit])
  }

  function Apply(s: System, t: Step): System
  {
    match t
    case Grant(_, _, _, _, _, _, _, _) => GrantStep(s, t)
    case Observe(_, _, _, _, _) => ObserveStep(s, t)
    case Reconcile(_, _, _, _, _) => ReconcileStep(s, t)
    case TakeLease(_, _, _, _) => TakeLeaseStep(s, t)
    case Persist(_, _, _, _) => PersistStep(s, t)
    case Send(_, _) => SendStep(s, t)
    case Finish(_, _, _, _) => FinishStep(s, t)
    case Abort(_, _, _) => AbortStep(s, t)
    case Disable(reason) => s.(ledger := DisableFaucet(s.ledger, reason))
    case Execute(_, _, _) => ExecuteStep(s, t)
    case _ => LocalStep(s, t)
  }

  function Run(s: System, steps: seq<Step>): System
    decreases |steps|
  {
    if steps == [] then s else Run(Apply(s, steps[0]), steps[1..])
  }

  // ----- invariant -----

  /** A snapshot of an operation is an earlier version of its record. */
  ghost predicate SnapshotOk(l: Ledger, id: OpId, op: Operation)
  {
    id in l.operations && op.kind == KindOf(id)
    && (op.attempt.Some? <==> !op.state.Reserved?)
    && (op.attempt.Some? ==> l.operations[id].attempt == op.attempt)
  }

  ghost predicate WorkerOk(s: System, pc: Worker)
  {
    match pc
    case Idle => true
    case Erring(lease) => lease in s.issued
    case Holding(id, op, _) => SnapshotOk(s.ledger, id, op)
    case Leased(id, op, lease) => SnapshotOk(s.ledger, id, op) && lease in s.issued && lease.opId == id
    case _ => SnapshotOk(s.ledger, pc.id, pc.op) && pc.lease in s.issued && pc.lease.opId == pc.id && pc.op.attempt.Some?
              && (pc.Sent? ==> pc.target.Failed? || pc.target.Submitted?)
  }

  /** Leases are numbered in order of issue. */
  ghost predicate IssuedOk(s: System)
  {
    |s.issued| == s.ledger.nextFence && forall i | 0 <= i < |s.issued| :: s.issued[i].fence == i + 1
  }

  /** The lease the ledger holds for a kind is the latest one issued for that kind. */
  ghost predicate CurrentIsLatest(s: System, kind: Kind)
    requires kind in s.ledger.leases
  {
    var lease := s.ledger.leases[kind];
    lease in s.issued && forall i | lease.fence <= i < |s.issued| :: KindOf(s.issued[i].opId) != kind
  }

  ghost predicate SentOk(s: System)
  {
    && (forall x | x in s.sent :: x.0 in s.ledger.operations && s.ledger.operations[x.0].attempt == Some(x.1))
    && (forall sig | sig in s.executed :: exists x :: x in s.sent && x.1.signature == sig && s.executed[sig] <= Reservation(KindOf(x.0)))
  }

  ghost predicate ConfirmedOk(s: System)
  {
    forall id | id in s.ledger.operations && s.ledger.operations[id].state.Confirmed? ::
      s.ledger.operations[id].attempt.Some? && s.ledger.operations[id].attempt.value.signature in s.executed
  }

  ghost predicate SysInv(s: System)
  {
    && Inv(s.ledger)
    && (forall w | w in s.workers :: WorkerOk(s, s.workers[w]))
    && IssuedOk(s)
    && (forall kind | kind in s.ledger.leases :: CurrentIsLatest(s, kind))
    && SentOk(s)
    && ConfirmedOk(s)
  }

  /** What one step never undoes. */
  ghost predicate Forward(s: System, t: System)
  {
    Progress(s.ledger, t.ledger) && s.issued <= t.issued && s.sent <= t.sent
    && (forall sig | sig in s.executed :: sig in t.executed && t.executed[sig] == s.executed[sig])
  }

  lemma WorkersCarryOver(s: System, t: System)
    requires SysInv(s) && Forward(s, t)
    ensures forall w | w in s.workers :: WorkerOk(t, s.workers[w])
  {
    forall w | w in s.workers ensures WorkerOk(t, s.workers[w]) {
      assert WorkerOk(s, s.workers[w]);
    }
  }

  /** A swap that issues no lease keeps the system invariant, given the caller's new snapshot is right. */
  lemma CommitKeeps(s: System, w: nat, r: Result<Ledger, Error>, ack: bool, done: Worker, failed: Worker)
    requires SysInv(s)
    requires r.Ok? ==> Inv(r.value) && Progress(s.ledger, r.value) && r.value.nextFence == s.ledger.nextFence
    requires r.Ok? ==> forall k | k in r.value.leases :: k in s.ledger.leases && r.value.leases[k] == s.ledger.leases[k]
    requires r.Ok? ==> forall id | id in r.value.operations && r.value.operations[id].state.Confirmed? ::
      r.value.operations[id].attempt.Some? && r.value.operations[id].attempt.value.signature in s.executed
    requires WorkerOk(s, failed)
    requires r.Ok? ==> WorkerOk(s.(ledger := r.value), done)
    ensures SysInv(Commit(s, w, r, ack, done, failed)) && Forward(s, Commit(s, w, r, ack, done, failed))
  {
    var t := Commit(s, w, r, ack, done, failed);
    assert Forward(s, t);
    WorkersCarryOver(s, t);
    forall k | k in t.ledger.leases ensures CurrentIsLatest(t, k) { assert CurrentIsLatest(s, k); }
    if r.Ok? {
      assert WorkerOk(t, failed);
      assert WorkerOk(t, done);
    }
  }

  lemma PutKeeps(s: System, w: nat, pc: Worker)
    requires SysInv(s) && WorkerOk(s, pc)
    ensures SysInv(Put(s, w, pc)) && Forward(s, Put(s, w, pc))
  {
    CommitKeeps(s, w, Err(LeaseBusy), true, Idle, pc);
  }

  lemma GrantStepKeeps(s: System, t: Step)
    requires SysInv(s) && t.Grant?
    ensures SysInv(GrantStep(s, t)) && Forward(s, GrantStep(s, t))
  {
    var r := ReserveGrant(s.ledger, t.owner, t.asset, t.visitor, t.ip, t.day, t.now);
    ReserveGrantKeeps(s.ledger, t.owner, t.asset, t.visitor, t.ip, t.day, t.now);
    var id := GrantId(t.owner, t.asset, t.day);
    if At(s, t.w).Idle? {
      if r.Ok? { assert RecordOk(r.value, id); }
      CommitKeeps(s, t.w, r, t.ack, if r.Ok? then Holding(id, r.value.operations[id], true) else Idle, Idle);
    }
  }

  lemma ObserveStepKeeps(s: System, t: Step)
    requires SysInv(s) && t.Observe?
    ensures SysInv(ObserveStep(s, t)) && Forward(s, ObserveStep(s, t))
  {
    var r := ReserveObservation(s.ledger, t.asset, t.bucket, t.now);
    ReserveObservationKeeps(s.ledger, t.asset, t.bucket, t.now);
    var id := ObservationId(t.asset, t.bucket);
    if At(s, t.w).Idle? {
      if r.Ok? { assert RecordOk(r.value, id); }
      CommitKeeps(s, t.w, r, t.ack, if r.Ok? then Holding(id, r.value.operations[id], true) else Idle, Idle);
    }
  }

  lemma TransitionBacked(s: System, id: OpId, verdict: OpState, errorCode: Option<string>, now: int)
    requires Inv(s.ledger) && ConfirmedOk(s) && id in s.ledger.operations && s.ledger.operations[id].attempt.Some?
    requires verdict.Confirmed? ==> s.ledger.operations[id].attempt.value.signature in s.executed
    ensures var r := Transition(s.ledger, id, verdict, errorCode, now);
      r.Ok? ==> forall x | x in r.value.operations && r.value.operations[x].state.Confirmed? ::
        r.value.operations[x].attempt.Some? && r.value.operations[x].attempt.value.signature in s.executed
  {
    var r := Transition(s.ledger, id, verdict, errorCode, now);
    TransitionKeeps(s.ledger, id, verdict, errorCode, now);
    if r.Ok? { VerdictBacked(s, r.value, id, verdict); }
  }

  lemma ReconcileStepKeeps(s: System, t: Step)
    requires SysInv(s) && t.Reconcile?
    ensures SysInv(ReconcileStep(s, t)) && Forward(s, ReconcileStep(s, t))
  {
    var pc := At(s, t.w);
    if pc.Holding? && !Terminal(pc.op.state) && pc.op.attempt.Some? && Terminal(t.verdict)
       && (t.verdict.Confirmed? ==> pc.op.attempt.value.signature in s.executed) {
      assert WorkerOk(s, pc);
      var r := Transition(s.ledger, pc.id, t.verdict, t.errorCode, t.now);
      TransitionKeeps(s.ledger, pc.id, t.verdict, t.errorCode, t.now);
      TransitionBacked(s, pc.id, t.verdict, t.errorCode, t.now);
      CommitKeeps(s, t.w, r, t.ack, Idle, Idle);
    }
  }

  lemma VerdictBacked(s: System, l: Ledger, id: OpId, verdict: OpState)
    requires ConfirmedOk(s) && id in s.ledger.operations && id in l.operations
    requires l.operations - {id} == s.ledger.operations - {id}
    requires l.operations[id].attempt == s.ledger.operations[id].attempt
    requires l.operations[id].state == s.ledger.operations[id].state || l.operations[id].state == verdict
    requires verdict.Confirmed? ==> l.operations[id].attempt.Some? && l.operations[id].attempt.value.signature in s.executed
    ensures forall x | x in l.operations && l.operations[x].state.Confirmed? ::
      l.operations[x].attempt.Some? && l.operations[x].attempt.value.signature in s.executed
  {
    forall x | x in l.operations && l.operations[x].state.Confirmed?
      ensures l.operations[x].attempt.Some? && l.operations[x].attempt.value.signature in s.executed
    {
      if x != id { assert x in l.operations - {id} && x in s.ledger.operations - {id}; }
    }
  }

  lemma IssueExtends(s: System, u: System, lease: Lease)
    requires IssuedOk(s) && forall k | k in s.ledger.leases :: CurrentIsLatest(s, k)
    requires u.issued == s.issued + [lease] && u.ledger.nextFence == s.ledger.nextFence + 1 == lease.fence
    requires u.ledger.leases == s.ledger.leases[KindOf(lease.opId) := lease]
    ensures IssuedOk(u) && forall k | k in u.ledger.leases :: CurrentIsLatest(u, k)
  {
    assert u.issued[|s.issued|] == lease;
    forall k | k in u.ledger.leases ensures CurrentIsLatest(u, k) {
      if k != KindOf(lease.opId) { assert CurrentIsLatest(s, k); }
    }
  }

  lemma IssueKeeps(s: System, l: Ledger, lease: Lease)
    requires SysInv(s) && Inv(l) && Progress(s.ledger, l)
    requires l.nextFence == s.ledger.nextFence + 1 == lease.fence
    requires l.leases == s.ledger.leases[KindOf(lease.opId) := lease]
    requires l.operations.Keys == s.ledger.operations.Keys
    requires forall x | x in l.operations ::
      l.operations[x].state == s.ledger.operations[x].state && l.operations[x].attempt == s.ledger.operations[x].attempt
    ensures var u := s.(ledger := l, issued := s.issued + [lease]);
      SysInv(u) && Forward(s, u) && lease in u.issued
  {
    var u := s.(ledger := l, issued := s.issued + [lease]);
    assert u.issued[|s.issued|] == lease;
    assert Forward(s, u);
    WorkersCarryOver(s, u);
    IssueExtends(s, u, lease);
  }

  /** The system after worker w's lease commits. */
  function WithLease(s: System, pc: Worker, w: nat, holder: nat, now: int, ack: bool): System
    requires pc.Holding? && Acquire(s.ledger, pc.id, pc.op, holder, now).Ok?
  {
    var lease := Lease(pc.id, holder, s.ledger.nextFence + 1, now + PREPARATION_LEASE_MS);
    Put(s.(ledger := Acquire(s.ledger, pc.id, pc.op, holder, now).value, issued := s.issued + [lease]), w,
        if ack then Leased(pc.id, pc.op, lease) else Idle)
  }

  lemma TakeLeaseCases(s: System, t: Step)
    requires t.TakeLease?
    ensures var pc := At(s, t.w); var u := TakeLeaseStep(s, t);
      || u == s
      || u == Put(s, t.w, Idle)
      || (pc.Holding? && Acquire(s.ledger, pc.id, pc.op, t.holder, t.now).Ok?
          && u == WithLease(s, pc, t.w, t.holder, t.now, t.ack))
  {
  }

  lemma TakeLeaseStepKeeps(s: System, t: Step)
    requires SysInv(s) && t.TakeLease?
    ensures SysInv(TakeLeaseStep(s, t)) && Forward(s, TakeLeaseStep(s, t))
  {
    var pc := At(s, t.w);
    var u := TakeLeaseStep(s, t);
    TakeLeaseCases(s, t);
    if u != s && u != Put(s, t.w, Idle) {
      LeaseTaken(s, pc, t.w, t.holder, t.now, t.ack) by { assert WorkerOk(s, pc); }
    } else if u != s {
      PutKeeps(s, t.w, Idle);
    }
  }

  lemma LeaseTaken(s: System, pc: Worker, w: nat, holder: nat, now: int, ack: bool)
    requires SysInv(s) && pc.Holding? && WorkerOk(s, pc)
    requires Acquire(s.ledger, pc.id, pc.op, holder, now).Ok?
    ensures SysInv(WithLease(s, pc, w, holder, now, ack)) && Forward(s, WithLease(s, pc, w, holder, now, ack))
  {
    AcquireKeeps(s.ledger, pc.id, pc.op, holder, now);
    var l := Acquire(s.ledger, pc.id, pc.op, holder, now).value;
    var lease := Lease(pc.id, holder, s.ledger.nextFence + 1, now + PREPARATION_LEASE_MS);
    IssueKeeps(s, l, lease);
    var u := s.(ledger := l, issued := s.issued + [lease]);
    var next := if ack then Leased(pc.id, pc.op, lease) else Idle;
    assert WorkerOk(u, next);
    PutKeeps(u, w, next);
  }

  lemma PersistStepKeeps(s: System, t: Step)
    requires SysInv(s) && t.Persist?
    ensures SysInv(PersistStep(s, t)) && Forward(s, PersistStep(s, t))
  {
    var pc := At(s, t.w);
    if pc.Leased? && pc.op.state.Reserved? && t.attempt.signature.payer == KindOf(pc.id) {
      assert WorkerOk(s, pc);
      var r := PersistPrepared(s.ledger, pc.id, pc.lease, t.attempt, t.now);
      PersistPreparedKeeps(s.ledger, pc.id, pc.lease, t.attempt, t.now);
      if r.Ok? { assert RecordOk(r.value, pc.id); }
      CommitKeeps(s, t.w, r, t.ack, if r.Ok? then Ready(pc.id, r.value.operations[pc.id], pc.lease) else Idle, Erring(pc.lease));
    }
  }

  lemma LocalStepKeeps(s: System, t: Step)
    requires SysInv(s) && (t.SkipPrepare? || t.CheckFence? || t.Throw? || t.Crash?)
    ensures SysInv(LocalStep(s, t)) && Forward(s, LocalStep(s, t))
  {
    var pc := At(s, t.w);
    assert WorkerOk(s, pc);
    match t
    case SkipPrepare(w) => if pc.Leased? && !pc.op.state.Reserved? { PutKeeps(s, w, Ready(pc.id, pc.op, pc.lease)); }
    case CheckFence(w, now) => if pc.Ready? {
      PutKeeps(s, w, if SendFence(s.ledger, pc.id, pc.lease, now) then Fenced(pc.id, pc.op, pc.lease) else Erring(pc.lease)); }
    case Throw(w) => if pc.Leased? || pc.Ready? { PutKeeps(s, w, Erring(pc.lease)); }
    case Crash(w) => PutKeeps(s, w, Idle);
  }

  lemma SendStepKeeps(s: System, t: Step)
    requires SysInv(s) && t.Send?
    ensures SysInv(SendStep(s, t)) && Forward(s, SendStep(s, t))
  {
    var u := SendStep(s, t);
    assert WorkerOk(s, At(s, t.w));
    assert Forward(s, u);
    WorkersCarryOver(s, u);
    forall k | k in u.ledger.leases ensures CurrentIsLatest(u, k) { assert CurrentIsLatest(s, k); }
  }

  lemma FinishStepKeeps(s: System, t: Step)
    requires SysInv(s) && t.Finish?
    ensures SysInv(FinishStep(s, t)) && Forward(s, FinishStep(s, t))
  {
    var pc := At(s, t.w);
    if pc.Sent? {
      assert WorkerOk(s, pc);
      var r := Release(s.ledger, pc.lease, Some(pc.target), t.errorCode, t.now);
      var id := pc.lease.opId;
      if r.Ok? {
        ReleaseKeepsIff(s.ledger, pc.lease, Some(pc.target), t.errorCode, t.now);
        assert RecordOk(s.ledger, id) && RecordOk(r.value, id);
      }
      CommitKeeps(s, t.w, r, t.ack, if r.Ok? then Holding(id, r.value.operations[id], false) else Idle, Idle);
    }
  }

  lemma AbortStepKeeps(s: System, t: Step)
    requires SysInv(s) && t.Abort?
    ensures SysInv(AbortStep(s, t)) && Forward(s, AbortStep(s, t))
  {
    var pc := At(s, t.w);
    if pc.Erring? {
      var r := Release(s.ledger, pc.lease, None, None, t.now);
      if r.Ok? { ReleaseKeepsIff(s.ledger, pc.lease, None, None, t.now); }
      CommitKeeps(s, t.w, r, t.ack, Idle, Idle);
    }
  }

  lemma ExecuteStepKeeps(s: System, t: Step)
    requires SysInv(s) && t.Execute?
    ensures SysInv(ExecuteStep(s, t)) && Forward(s, ExecuteStep(s, t))
  {
    var u := ExecuteStep(s, t);
    assert Forward(s, u);
    WorkersCarryOver(s, u);
    forall k | k in u.ledger.leases ensures CurrentIsLatest(u, k) { assert CurrentIsLatest(s, k); }
    forall sig | sig in u.executed
      ensures exists x :: x in u.sent && x.1.signature == sig && u.executed[sig] <= Reservation(KindOf(x.0))
    {
      if sig in s.executed && u.executed[sig] == s.executed[sig] {
        var x :| x in s.sent && x.1.signature == sig && s.executed[sig] <= Reservation(KindOf(x.0));
        assert x in u.sent;
      } else {
        assert (t.id, t.attempt) in u.sent;
      }
    }
  }

  lemma DisableStepKeeps(s: System, reason: string)
    requires SysInv(s)
    ensures var u := s.(ledger := DisableFaucet(s.ledger, reason)); SysInv(u) && Forward(s, u)
  {
    var u := s.(ledger := DisableFaucet(s.ledger, reason));
    DisableKeeps(s.ledger, reason);
    WorkersCarryOver(s, u);
    forall k | k in u.ledger.leases ensures CurrentIsLatest(u, k) { assert CurrentIsLatest(s, k); }
  }

  lemma LeasedStepKeeps(s: System, t: Step)
    requires SysInv(s) && (t.TakeLease? || t.Persist? || t.Send? || t.Finish? || t.Abort?)
    ensures SysInv(Apply(s, t)) && Forward(s, Apply(s, t))
  {
    match t
    case TakeLease(_, _, _, _) => TakeLeaseStepKeeps(s, t);
    case Persist(_, _, _, _) => PersistStepKeeps(s, t);
    case Send(_, _) => SendStepKeeps(s, t);
    case Finish(_, _, _, _) => FinishStepKeeps(s, t);
    case Abort(_, _, _) => AbortStepKeeps(s, t);
  }

  lemma OpeningStepKeeps(s: System, t: Step)
    requires SysInv(s) && (t.Grant? || t.Observe? || t.Reconcile?)
    ensures SysInv(Apply(s, t)) && Forward(s, Apply(s, t))
  {
    match t
    case Grant(_, _, _, _, _, _, _, _) => GrantStepKeeps(s, t);
    case Observe(_, _, _, _, _) => ObserveStepKeeps(s, t);
    case Reconcile(_, _, _, _, _) => ReconcileStepKeeps(s, t);
  }

  lemma OtherStepKeeps(s: System, t: Step)
    requires SysInv(s) && !(t.TakeLease? || t.Persist? || t.Send? || t.Finish? || t.Abort? || t.Grant? || t.Observe? || t.Reconcile?)
    ensures SysInv(Apply(s, t)) && Forward(s, Apply(s, t))
  {
    match t
    case Disable(reason) => DisableStepKeeps(s, reason);
    case Execute(_, _, _) => ExecuteStepKeeps(s, t);
    case _ => LocalStepKeeps(s, t);
  }

  lemma ApplyKeeps(s: System, t: Step)
    requires SysInv(s)
    ensures SysInv(Apply(s, t)) && Forward(s, Apply(s, t))
  {
    if t.TakeLease? || t.Persist? || t.Send? || t.Finish? || t.Abort? { LeasedStepKeeps(s, t); }
    else if t.Grant? || t.Observe? || t.Reconcile? { OpeningStepKeeps(s, t); }
    else { OtherStepKeeps(s, t); }
  }

  lemma {:induction false} RunKeeps(s: System, steps: seq<Step>)
    requires SysInv(s)
    ensures SysInv(Run(s, steps)) && Forward(s, Run(s, steps))
    decreases |steps|
  {
    if steps != [] {
      var m := Apply(s, steps[0]);
      ApplyKeeps(s, steps[0]);
      RunKeeps(m, steps[1..]);
      ProgressTransitive(s.ledger, m.ledger, Run(s, steps).ledger);
    }
  }

  lemma StartOk()
    ensures SysInv(Start())
  {
    EmptyLedgerOk();
  }

  // ----- the results -----

  /**
   Over every run: at most one attempt is ever sent for an operation, it is the one recorded, and a
   record has an attempt exactly when it is no longer reserved.
   */
  lemma SingleAttempt(steps: seq<Step>, later: seq<Step>)
    ensures var s := Run(Start(), steps); var t := Run(s, later);
      && (forall x | x in s.sent :: x.0 in t.ledger.operations && t.ledger.operations[x.0].attempt == Some(x.1))
      && (forall x, y | x in s.sent && y in t.sent && x.0 == y.0 :: x.1 == y.1)
      && (forall id | id in t.ledger.operations :: t.ledger.operations[id].attempt.Some? <==> !t.ledger.operations[id].state.Reserved?)
  {
    StartOk();
    RunKeeps(Start(), steps);
    RunKeeps(Run(Start(), steps), later);
    var t := Run(Run(Start(), steps), later);
    forall id | id in t.ledger.operations
      ensures t.ledger.operations[id].attempt.Some? <==> !t.ledger.operations[id].state.Reserved?
    {
      assert RecordOk(t.ledger, id);
    }
  }

  /** Once a later lease of the same kind exists, the earlier one is dead for good. */
  lemma Fencing(steps: seq<Step>, later: seq<Step>, i: nat, j: nat, id: OpId, attempt: Attempt, state: Option<OpState>, errorCode: Option<string>, now: int)
    requires var s := Run(Start(), steps); i < j < |s.issued| && KindOf(s.issued[i].opId) == KindOf(s.issued[j].opId)
    ensures var s := Run(Start(), steps); var t := Run(s, later); var lease := s.issued[i];
      && lease.fence < s.issued[j].fence
      && PersistPrepared(t.ledger, id, lease, attempt, now).Err?
      && !SendFence(t.ledger, id, lease, now)
      && var r := Release(t.ledger, lease, state, errorCode, now);
         (r.Ok? ==> r.value.leases == t.ledger.leases && r.value.operations == t.ledger.operations)
  {
    StartOk();
    var s := Run(Start(), steps);
    var t := Run(s, later);
    RunKeeps(Start(), steps);
    RunKeeps(s, later);
    assert t.issued[i] == s.issued[i] && t.issued[j] == s.issued[j];
    forall k | k in t.ledger.leases ensures t.ledger.leases[k].fence != s.issued[i].fence { SupersededFence(t, i, j, k); }
    DeadLease(t.ledger, s.issued[i], id, attempt, state, errorCode, now);
  }

  lemma SupersededFence(t: System, i: nat, j: nat, k: Kind)
    requires SysInv(t) && i < j < |t.issued| && KindOf(t.issued[i].opId) == KindOf(t.issued[j].opId) && k in t.ledger.leases
    ensures t.ledger.leases[k].fence != t.issued[i].fence
  {
    assert CurrentIsLatest(t, k) && LeaseOk(t.ledger, k);
  }

  /** A lease whose fence no held lease carries can do nothing. */
  lemma DeadLease(l: Ledger, lease: Lease, id: OpId, attempt: Attempt, state: Option<OpState>, errorCode: Option<string>, now: int)
    requires forall k | k in l.leases :: l.leases[k].fence != lease.fence
    ensures PersistPrepared(l, id, lease, attempt, now).Err? && !SendFence(l, id, lease, now)
    ensures var r := Release(l, lease, state, errorCode, now);
      r.Ok? ==> r.value.leases == l.leases && r.value.operations == l.operations
  {
  }

  /** Rank never falls, terminal records never change, and a live lease carries its operation's fence. */
  lemma RecordsOnlyAdvance(steps: seq<Step>, later: seq<Step>)
    ensures var s := Run(Start(), steps); var t := Run(s, later);
      && Progress(s.ledger, t.ledger)
      && (forall k | k in t.ledger.leases :: LeaseOk(t.ledger, k))
      && (forall id | id in t.ledger.operations && t.ledger.operations[id].state.Confirmed? ::
            t.ledger.operations[id].attempt.Some? && t.ledger.operations[id].attempt.value.signature in t.executed)
  {
    StartOk();
    RunKeeps(Start(), steps);
    RunKeeps(Run(Start(), steps), later);
  }

  // ----- money -----

  /** Signatures that each belong to some operation are no more numerous than the operations. */
  lemma {:induction false} SignaturesAtMostOperations(l: Ledger, sigs: set<Signature>, ids: set<OpId>)
    requires forall id | id in ids :: id in l.operations
    requires forall sig | sig in sigs :: exists id :: id in ids && l.operations[id].attempt.Some? && l.operations[id].attempt.value.signature == sig
    ensures |sigs| <= |ids|
    decreases |ids|
  {
    if ids == {} {
      assert sigs == {};
    } else {
      var id :| id in ids;
      var gone := if l.operations[id].attempt.Some? then {l.operations[id].attempt.value.signature} else {};
      forall sig | sig in sigs - gone
        ensures exists x :: x in ids - {id} && l.operations[x].attempt.Some? && l.operations[x].attempt.value.signature == sig
      {
        var x :| x in ids && l.operations[x].attempt.Some? && l.operations[x].attempt.value.signature == sig;
        assert x in ids - {id};
      }
      SignaturesAtMostOperations(l, sigs - gone, ids - {id});
      assert |sigs| <= |sigs - gone| + 1;
    }
  }

  ghost function Debited(s: System, kind: Kind): map<Signature, nat>
  {
    map sig | sig in s.executed && sig.payer == kind :: s.executed[sig]
  }

  function LifetimeSpent(l: Ledger, kind: Kind): nat
  {
    if kind.Faucet? then l.faucetLifetime else l.observationLifetime
  }

  /**
   In every run, whatever the payer of a kind was debited on chain is covered by the journal's lifetime
   counter, which is the reservation times the number of operations and never exceeds the cap.
   */
  lemma SpendingBounded(steps: seq<Step>, kind: Kind)
    ensures var s := Run(Start(), steps);
      && Counting.Sum(Debited(s, kind)) <= LifetimeSpent(s.ledger, kind)
      && LifetimeSpent(s.ledger, kind) == Reservation(kind) * |OfKind(s.ledger, kind)|
      && LifetimeSpent(s.ledger, kind) <= LifetimeCap(kind)
  {
    StartOk();
    RunKeeps(Start(), steps);
    var s := Run(Start(), steps);
    var m, ids := Debited(s, kind), OfKind(s.ledger, kind);
    forall sig | sig in m
      ensures m[sig] <= Reservation(kind)
      ensures exists id :: id in ids && s.ledger.operations[id].attempt.Some? && s.ledger.operations[id].attempt.value.signature == sig
    {
      var id := DebitBacked(s, kind, sig);
    }
    SignaturesAtMostOperations(s.ledger, m.Keys, ids);
    DebitsBounded(m, Reservation(kind), |ids|);
  }

  lemma DebitsBounded(m: map<Signature, nat>, cap: nat, n: nat)
    requires (forall k | k in m :: m[k] <= cap) && |m.Keys| <= n
    ensures Counting.Sum(m) <= cap * n
  {
    Counting.SumBound(m, cap);
    Counting.TimesMonotone(cap, |m|, n);
  }

  /** A debit of a kind belongs to an operation of that kind, whose reservation covers it. */
  lemma DebitBacked(s: System, kind: Kind, sig: Signature) returns (id: OpId)
    requires SysInv(s) && sig in s.executed && sig.payer == kind
    ensures id in OfKind(s.ledger, kind) && s.ledger.operations[id].attempt.Some? && s.ledger.operations[id].attempt.value.signature == sig
    ensures s.executed[sig] <= Reservation(kind)
  {
    var x :| x in s.sent && x.1.signature == sig && s.executed[sig] <= Reservation(KindOf(x.0));
    assert RecordOk(s.ledger, x.0);
    id := x.0;
  }

  /** In every run no UTC day grants more than the global, per-visitor and per-address limits. */
  lemma DailyLimits(steps: seq<Step>, day: int, visitor: string, ip: string)
    ensures var l := Run(Start(), steps).ledger;
      && |GrantsOn(l, day)| <= FAUCET_DAILY_GRANTS
      && |VisitorGrantsOn(l, day, visitor)| <= VISITOR_DAILY_GRANTS
      && |IpGrantsOn(l, day, ip)| <= IP_DAILY_GRANTS
  {
    StartOk();
    RunKeeps(Start(), steps);
    var l := Run(Start(), steps).ledger;
    assert DayOk(l, day) && VisitorOk(l, day, visitor) && IpOk(l, day, ip);
  }

  // ----- the protocol can finish -----

  lemma {:induction false} RunThen(s: System, steps: seq<Step>, t: Step)
    ensures Run(s, steps + [t]) == Apply(Run(s, steps), t)
    decreases |steps|
  {
    if steps == [] {
      assert (steps + [t])[1..] == [];
    } else {
      assert (steps + [t])[1..] == steps[1..] + [t];
      RunThen(Apply(s, steps[0]), steps[1..], t);
    }
  }

  lemma Then(s: System, steps: seq<Step>, t: Step) returns (longer: seq<Step>)
    ensures Run(s, longer) == Apply(Run(s, steps), t)
  {
    RunThen(s, steps, t);
    longer := steps + [t];
  }

  /** A grant that its lease holds, at a state with an attempt; `executed` is all the chain has executed. */
  ghost predicate Stage(s: System, id: OpId, lease: Lease, state: OpState, attempt: Option<Attempt>, executed: map<Signature, nat>)
  {
    && id in s.ledger.operations && KindOf(id).Faucet? && lease.opId == id
    && Faucet in s.ledger.leases && s.ledger.leases[Faucet] == lease && s.executed == executed
    && var op := s.ledger.operations[id];
       op.kind.Faucet? && op.state == state && op.attempt == attempt && (attempt.Some? ==> op.fence == Some(lease.fence))
  }

  /** The faucet's lease is free: absent or expired. */
  predicate LeaseFree(l: Ledger, now: int)
  {
    Faucet in l.leases ==> l.leases[Faucet].expiresAt <= now
  }

  lemma Reserves(s: System, w: nat, owner: string, asset: string, visitor: string, ip: string, day: int, now: int)
    requires At(s, w).Idle? && GrantId(owner, asset, day) !in s.ledger.operations
    requires ReserveGrant(s.ledger, owner, asset, visitor, ip, day, now).Ok?
    ensures var t := Apply(s, Grant(w, owner, asset, visitor, ip, day, now, true)); var id := GrantId(owner, asset, day);
      && id in t.ledger.operations && t.ledger.operations[id].kind.Faucet? && t.ledger.operations[id].state.Reserved?
      && t.ledger.operations[id].attempt.None? && At(t, w) == Holding(id, t.ledger.operations[id], true)
      && t.ledger.leases == s.ledger.leases && t.ledger.nextFence == s.ledger.nextFence && t.executed == s.executed
  {
  }

  lemma Leases(s: System, w: nat, id: OpId, now: int)
    requires id in s.ledger.operations && KindOf(id).Faucet? && s.ledger.operations[id].kind.Faucet?
    requires s.ledger.operations[id].state.Reserved? && s.ledger.operations[id].attempt.None? && LeaseFree(s.ledger, now)
    requires At(s, w) == Holding(id, s.ledger.operations[id], true)
    ensures var t := Apply(s, TakeLease(w, w, now, true)); var lease := Lease(id, w, s.ledger.nextFence + 1, now + PREPARATION_LEASE_MS);
      Stage(t, id, lease, Reserved, None, s.executed) && At(t, w) == Leased(id, t.ledger.operations[id], lease)
  {
  }

  lemma Persists(s: System, w: nat, id: OpId, lease: Lease, attempt: Attempt, e: map<Signature, nat>, now: int)
    requires Stage(s, id, lease, Reserved, None, e) && At(s, w) == Leased(id, s.ledger.operations[id], lease)
    requires attempt.signature.payer.Faucet? && lease.expiresAt > now
    ensures var t := Apply(s, Persist(w, attempt, now, true));
      Stage(t, id, lease, Prepared, Some(attempt), e) && At(t, w) == Ready(id, t.ledger.operations[id], lease)
  {
  }

  lemma Passes(s: System, w: nat, id: OpId, lease: Lease, attempt: Attempt, e: map<Signature, nat>, now: int)
    requires Stage(s, id, lease, Prepared, Some(attempt), e) && At(s, w) == Ready(id, s.ledger.operations[id], lease) && lease.expiresAt > now
    ensures var t := Apply(s, CheckFence(w, now));
      Stage(t, id, lease, Prepared, Some(attempt), e) && At(t, w) == Fenced(id, t.ledger.operations[id], lease)
  {
  }

  lemma Sends(s: System, w: nat, id: OpId, lease: Lease, attempt: Attempt, e: map<Signature, nat>)
    requires Stage(s, id, lease, Prepared, Some(attempt), e) && At(s, w) == Fenced(id, s.ledger.operations[id], lease)
    ensures var t := Apply(s, Send(w, false));
      Stage(t, id, lease, Prepared, Some(attempt), e) && At(t, w) == Sent(id, t.ledger.operations[id], lease, Submitted) && (id, attempt) in t.sent
  {
  }

  lemma Executes(s: System, w: nat, id: OpId, lease: Lease, attempt: Attempt, e: map<Signature, nat>, debit: nat)
    requires Stage(s, id, lease, Prepared, Some(attempt), e) && At(s, w) == Sent(id, s.ledger.operations[id], lease, Submitted)
    requires (id, attempt) in s.sent && debit <= Reservation(Faucet) && attempt.signature !in e
    ensures var t := Apply(s, Execute(id, attempt, debit));
      Stage(t, id, lease, Prepared, Some(attempt), e[attempt.signature := debit]) && At(t, w) == Sent(id, t.ledger.operations[id], lease, Submitted)
  {
  }

  lemma Finishes(s: System, w: nat, id: OpId, lease: Lease, attempt: Attempt, executed: map<Signature, nat>, now: int)
    requires Stage(s, id, lease, Prepared, Some(attempt), executed) && At(s, w) == Sent(id, s.ledger.operations[id], lease, Submitted)
    requires lease.expiresAt > now
    ensures var t := Apply(s, Finish(w, None, now, true));
      && id in t.ledger.operations && Faucet !in t.ledger.leases && t.executed == executed
      && t.ledger.operations[id].state.Submitted? && t.ledger.operations[id].attempt == Some(attempt)
      && At(t, w) == Holding(id, t.ledger.operations[id], false)
  {
  }

  lemma Confirms(s: System, w: nat, id: OpId, attempt: Attempt, now: int)
    requires id in s.ledger.operations && s.ledger.operations[id].state.Submitted? && s.ledger.operations[id].attempt == Some(attempt)
    requires At(s, w) == Holding(id, s.ledger.operations[id], false) && attempt.signature in s.executed
    ensures var t := Apply(s, Reconcile(w, Confirmed, None, now, true));
      && id in t.ledger.operations && t.ledger.operations[id].state.Confirmed? && t.ledger.operations[id].attempt == Some(attempt)
      && t.executed == s.executed && t.ledger.leases == s.ledger.leases
  {
  }

  /**
   From any state of the system, reachable or not: if the limits leave room for a new grant, the faucet's lease is
   absent or expired and a worker is idle, that worker can reserve, lease, persist, send, release and confirm it,
   with any covered debit and any attempt not executed before.
   */
  lemma GrantsCanComplete(s: System, w: nat, owner: string, asset: string, visitor: string, ip: string, day: int, now: int, attempt: Attempt, debit: nat)
    returns (steps: seq<Step>)
    requires At(s, w).Idle? && LeaseFree(s.ledger, now) && GrantId(owner, asset, day) !in s.ledger.operations
    requires ReserveGrant(s.ledger, owner, asset, visitor, ip, day, now).Ok?
    requires attempt.signature.payer.Faucet? && attempt.signature !in s.executed && debit <= Reservation(Faucet)
    ensures var t := Run(s, steps); var id := GrantId(owner, asset, day);
      && id in t.ledger.operations && t.ledger.operations[id].state.Confirmed? && t.ledger.operations[id].attempt == Some(attempt)
      && t.executed == s.executed[attempt.signature := debit] && Faucet !in t.ledger.leases
  {
    var id, lease := GrantId(owner, asset, day), Lease(GrantId(owner, asset, day), w, s.ledger.nextFence + 1, now + PREPARATION_LEASE_MS);
    var e := s.executed[attempt.signature := debit];
    Reserves(s, w, owner, asset, visitor, ip, day, now);
    steps := Then(s, [], Grant(w, owner, asset, visitor, ip, day, now, true));
    Leases(Run(s, steps), w, id, now);
    steps := Then(s, steps, TakeLease(w, w, now, true));
    steps := SentFrom(s, steps, w, id, lease, attempt, now);
    Executes(Run(s, steps), w, id, lease, attempt, s.executed, debit);
    steps := Then(s, steps, Execute(id, attempt, debit));
    Finishes(Run(s, steps), w, id, lease, attempt, e, now);
    steps := Then(s, steps, Finish(w, None, now, true));
    Confirms(Run(s, steps), w, id, attempt, now);
    steps := Then(s, steps, Reconcile(w, Confirmed, None, now, true));
  }

  lemma SentFrom(s: System, before: seq<Step>, w: nat, id: OpId, lease: Lease, attempt: Attempt, now: int) returns (steps: seq<Step>)
    requires attempt.signature.payer.Faucet? && lease.expiresAt > now
    requires var u := Run(s, before); Stage(u, id, lease, Reserved, None, s.executed) && At(u, w) == Leased(id, u.ledger.operations[id], lease)
    ensures var t := Run(s, steps);
      && Stage(t, id, lease, Prepared, Some(attempt), s.executed) && At(t, w) == Sent(id, t.ledger.operations[id], lease, Submitted)
      && (id, attempt) in t.sent
  {
    Persists(Run(s, before), w, id, lease, attempt, s.executed, now);
    steps := Then(s, before, Persist(w, attempt, now, true));
    Passes(Run(s, steps), w, id, lease, attempt, s.executed, now);
    steps := Then(s, steps, CheckFence(w, now));
    Sends(Run(s, steps), w, id, lease, attempt, s.executed);
    steps := Then(s, steps, Send(w, false));
  }
}
