/**
 The life of one session over whole runs of the broker (packages/hosted-broker/src/broker.ts). Every status write
 the broker makes is one of the ledger's operations: a reservation writes `starting`, only the fenced write of
 probeReady writes `ready`, and every other write closes. Session ids are random, so no two creations share one.
 */
module SessionLifecycle {
  import opened Prelude
  import opened Counting
  import opened ClockedStore
  import opened SessionLedger
  import opened SessionQuotas

  /** No two creations share an id. */
  ghost predicate FreshIds(limits: Limits, h: History)
  {
    forall i, j | 0 <= i < j < |h| && Creates(limits, h, i) && Creates(limits, h, j) :: h[i].op.id != h[j].op.id
  }

  /** How far a session has come: starting, ready, or closed or gone. */
  function LifeRank(l: Ledger, id: string): nat
  {
    if id !in l.sessions then 2
    else match l.sessions[id].status
      case Starting => 0
      case Ready => 1
      case _ => 2
  }

  /** The session is the one its visitor and kind point to. */
  predicate Latest(l: Ledger, id: string)
  {
    id in l.sessions
    && var r := l.sessions[id];
       (r.visitor, r.kind) in l.latest && l.latest[(r.visitor, r.kind)] == id
  }

  predicate EntersReady(l: Ledger, m: Ledger, id: string)
  {
    LifeRank(l, id) != 1 && LifeRank(m, id) == 1
  }

  /** The transaction creates this session. */
  predicate CreatesId(limits: Limits, l: Ledger, op: Op, now: int, id: string)
  {
    op.Reserve? && op.id == id
    && var t := Transaction(limits, l, op, now);
       t.Ok? && t.value.created
  }

  predicate SameRecord(a: Record, b: Record)
  {
    a.visitor == b.visitor && a.kind == b.kind && a.createdAt == b.createdAt && a.expiresAt == b.expiresAt
    && a.tombstoneUntil <= b.tombstoneUntil
  }

  /** Records keep the identity and the expiry they were created with, and their tombstone only moves out. */
  ghost predicate SameSession(l: Ledger, m: Ledger, id: string)
  {
    id in m.sessions ==> (id in l.sessions && SameRecord(l.sessions[id], m.sessions[id]))
  }

  /** What normalization may do to a session: age it, drop it, or close it. */
  ghost predicate Aged(l: Ledger, n: Ledger, id: string)
  {
    && SameSession(l, n, id) && LifeRank(l, id) <= LifeRank(n, id)
    && (LifeRank(n, id) != LifeRank(l, id) ==> LifeRank(n, id) == 2)
    && (Latest(n, id) ==> Latest(l, id))
  }

  lemma NormalizeStep(l: Ledger, now: int, id: string)
    ensures Aged(l, Normalize(l, now), id)
  {
  }

  ghost predicate LifeStep(l: Ledger, op: Op, now: int, m: Ledger, id: string)
  {
    && SameSession(l, m, id)
    && LifeRank(l, id) <= LifeRank(m, id)
    && (Latest(m, id) ==> Latest(l, id))
    && (EntersReady(l, m, id) ==> LifeRank(l, id) == 0 && Latest(l, id) && l.sessions[id].expiresAt > now
                                  && op.Fenced? && op.write.MarkReady? && op.id == id)
  }

  lemma CallbackStep(limits: Limits, n: Ledger, op: Op, now: int, m: Ledger, created: bool, id: string)
    requires Callback(limits, n, op, now) == Ok(Outcome(m, created)) && !(created && op.id == id)
    ensures LifeStep(n, op, now, m, id)
  {
    match op
    case Reserve(_, _, _, _) =>
    case Update(_, _, _) =>
    case Fenced(_, _, _) =>
  }

  lemma AgedThenStep(l: Ledger, n: Ledger, op: Op, now: int, m: Ledger, id: string)
    requires Aged(l, n, id) && LifeStep(n, op, now, m, id)
    ensures LifeStep(l, op, now, m, id)
  {
  }

  lemma NormalizedAged(l: Ledger, now: int, revision: nat, id: string)
    ensures Aged(l, Normalize(l, now).(revision := revision), id)
  {
    NormalizeStep(l, now, id);
  }

  lemma OnlyReserveCreates(limits: Limits, l: Ledger, op: Op, now: int)
    ensures var t := Transaction(limits, l, op, now); t.Ok? && t.value.created ==> op.Reserve?
  {
  }

  /** Any transaction, seen from a session it does not create. */
  lemma SessionStep(limits: Limits, l: Ledger, op: Op, now: int, m: Ledger, created: bool, id: string)
    requires Transaction(limits, l, op, now) == Ok(Outcome(m, created)) && !(created && op.id == id)
    ensures LifeStep(l, op, now, m, id)
  {
    var n := Normalize(l, now).(revision := l.revision + 1);
    NormalizedAged(l, now, l.revision + 1, id);
    CallbackStep(limits, n, op, now, m, created, id);
    AgedThenStep(l, n, op, now, m, id);
  }

  lemma CreationStep(limits: Limits, l: Ledger, op: Op, now: int)
    requires op.Reserve? && CreatesId(limits, l, op, now, op.id)
    ensures var m := Transaction(limits, l, op, now).value.ledger;
      && m.sessions == Normalize(l, now).sessions[op.id := NewRecord(limits, op.visitor, op.ip, op.kind, now)]
      && m.latest == Normalize(l, now).latest[(op.visitor, op.kind) := op.id]
      && |Holding(m, now)| <= limits.active
  {
    var n, m := Normalize(l, now).(revision := l.revision + 1), Transaction(limits, l, op, now).value.ledger;
    assert Holding(m, now) <= Holding(n, now) + {op.id};
    SubsetSize(Holding(m, now), Holding(n, now) + {op.id});
  }

  // ----- runs -----

  predicate CreatedAs(limits: Limits, h: History, k: nat, id: string)
    requires k < |h|
  {
    Creates(limits, h, k) && h[k].op.id == id
  }

  lemma HistoryStep(limits: Limits, h: History, clock: int, k: nat, id: string)
    requires k < |h| && History?(limits, h, clock) && !CreatedAs(limits, h, k, id)
    ensures LifeStep(Before(h, k), h[k].op, h[k].at, Before(h, k + 1), id)
  {
    CommitStep(limits, h, clock, k);
    OnlyReserveCreates(limits, Before(h, k), h[k].op, h[k].at);
    var t := Transaction(limits, Before(h, k), h[k].op, h[k].at);
    SessionStep(limits, Before(h, k), h[k].op, h[k].at, Before(h, k + 1), t.value.created, id);
  }

  /** While no commit creates the session, its life only moves forward. */
  lemma {:induction false} LifeMovesForward(limits: Limits, h: History, clock: int, id: string, i: nat, j: nat)
    requires i <= j <= |h| && History?(limits, h, clock)
    requires forall k | i <= k < j :: !CreatedAs(limits, h, k, id)
    ensures var l, m := Before(h, i), Before(h, j);
      SameSession(l, m, id) && LifeRank(l, id) <= LifeRank(m, id) && (Latest(m, id) ==> Latest(l, id))
    decreases j - i
  {
    if i < j {
      HistoryStep(limits, h, clock, i, id);
      LifeMovesForward(limits, h, clock, id, i + 1, j);
    }
  }

  /** Every session in the ledger was created by an earlier commit. */
  lemma {:induction false} SessionsAreCreated(limits: Limits, h: History, clock: int, n: nat, id: string) returns (c: nat)
    requires n <= |h| && History?(limits, h, clock) && id in Before(h, n).sessions
    ensures c < n && CreatedAs(limits, h, c, id)
  {
    if CreatedAs(limits, h, n - 1, id) {
      c := n - 1;
    } else {
      HistoryStep(limits, h, clock, n - 1, id);
      c := SessionsAreCreated(limits, h, clock, n - 1, id);
    }
  }

  /** `ready` is entered from `starting`, by the fenced write, while latest and before expiry. */
  lemma ReadyFromStarting(limits: Limits, h: History, clock: int, k: nat, id: string)
    requires k < |h| && History?(limits, h, clock) && EntersReady(Before(h, k), Before(h, k + 1), id)
    ensures var l := Before(h, k);
      && LifeRank(l, id) == 0 && Latest(l, id) && l.sessions[id].expiresAt > h[k].at
      && h[k].op.Fenced? && h[k].op.write.MarkReady? && h[k].op.id == id && !CreatedAs(limits, h, k, id)
  {
    if CreatedAs(limits, h, k, id) {
      CommitStep(limits, h, clock, k);
      CreationStep(limits, Before(h, k), h[k].op, h[k].at);
      assert false;
    }
    HistoryStep(limits, h, clock, k, id);
  }

  /** In every run a session becomes ready at most once, only from starting, only while latest and unexpired. */
  lemma ReadyAtMostOnce(limits: Limits, clock: int, steps: seq<Step<Op>>, id: string, i: nat, j: nat)
    requires var h := Run(Performer(limits), Start(EmptyLedger(), clock), steps).commits;
      i < |h| && j < |h| && FreshIds(limits, h)
      && EntersReady(Before(h, i), Before(h, i + 1), id) && EntersReady(Before(h, j), Before(h, j + 1), id)
    ensures i == j
    ensures var h := Run(Performer(limits), Start(EmptyLedger(), clock), steps).commits; var l := Before(h, i);
      LifeRank(l, id) == 0 && Latest(l, id) && l.sessions[id].expiresAt > h[i].at
  {
    CommitsAreOrdered(Performer(limits), EmptyLedger(), clock, steps);
    var h := Run(Performer(limits), Start(EmptyLedger(), clock), steps).commits;
    ReadyFromStarting(limits, h, clock, i, id);
    ReadyFromStarting(limits, h, clock, j, id);
    if i < j { ReadyOnce(limits, h, clock, id, i, j); }
    if j < i { ReadyOnce(limits, h, clock, id, j, i); }
  }

  lemma ReadyOnce(limits: Limits, h: History, clock: int, id: string, i: nat, j: nat)
    requires i < j < |h| && History?(limits, h, clock) && FreshIds(limits, h)
    requires LifeRank(Before(h, i), id) == 0 && LifeRank(Before(h, i + 1), id) == 1
    ensures LifeRank(Before(h, j), id) != 0
  {
    var c := SessionsAreCreated(limits, h, clock, i, id);
    LifeMovesForward(limits, h, clock, id, i + 1, j);
  }

  /** In every run, once created a session never moves back, keeps its identity, and never regains the latest slot. */
  lemma LifeOnlyAdvances(limits: Limits, clock: int, steps: seq<Step<Op>>, c: nat, i: nat, j: nat)
    requires var h := Run(Performer(limits), Start(EmptyLedger(), clock), steps).commits;
      c < i <= j <= |h| && FreshIds(limits, h) && Creates(limits, h, c)
    ensures var h := Run(Performer(limits), Start(EmptyLedger(), clock), steps).commits;
      var id, l, m := h[c].op.id, Before(h, i), Before(h, j);
      SameSession(l, m, id) && LifeRank(l, id) <= LifeRank(m, id) && (Latest(m, id) ==> Latest(l, id))
  {
    CommitsAreOrdered(Performer(limits), EmptyLedger(), clock, steps);
    var h := Run(Performer(limits), Start(EmptyLedger(), clock), steps).commits;
    LifeMovesForward(limits, h, clock, h[c].op.id, i, j);
  }

  /** In every run, a session whose visitor has since created another of its kind is never forwarded to again. */
  lemma SupersededNeverForwardable(limits: Limits, clock: int, steps: seq<Step<Op>>, c: nat, d: nat, n: nat, now: int)
    requires var h := Run(Performer(limits), Start(EmptyLedger(), clock), steps).commits;
      c < d < n <= |h| && FreshIds(limits, h) && Creates(limits, h, c) && Creates(limits, h, d)
      && h[c].op.visitor == h[d].op.visitor && h[c].op.kind == h[d].op.kind
    ensures var h := Run(Performer(limits), Start(EmptyLedger(), clock), steps).commits;
      !Forwardable(Before(h, n), h[c].op.id, now)
  {
    CommitsAreOrdered(Performer(limits), EmptyLedger(), clock, steps);
    var h := Run(Performer(limits), Start(EmptyLedger(), clock), steps).commits;
    SupersededStaysOut(limits, h, clock, c, d, n);
    OnlyLatestForwardable(Before(h, n), h[c].op.id, now);
  }

  lemma OnlyLatestForwardable(l: Ledger, id: string, now: int)
    ensures Forwardable(l, id, now) ==> Latest(l, id) && LifeRank(l, id) == 1 && l.sessions[id].expiresAt > now
  {
    NormalizeStep(l, now, id);
  }

  lemma SupersededStaysOut(limits: Limits, h: History, clock: int, c: nat, d: nat, n: nat)
    requires c < d < n <= |h| && History?(limits, h, clock) && FreshIds(limits, h) && Creates(limits, h, c) && Creates(limits, h, d)
    requires h[c].op.visitor == h[d].op.visitor && h[c].op.kind == h[d].op.kind
    ensures !Latest(Before(h, n), h[c].op.id)
  {
    SupersededLosesSlot(limits, h, clock, c, d);
    LifeMovesForward(limits, h, clock, h[c].op.id, d + 1, n);
  }

  lemma IdentityKept(limits: Limits, h: History, clock: int, c: nat, n: nat)
    requires c < n <= |h| && History?(limits, h, clock) && FreshIds(limits, h) && Creates(limits, h, c)
    ensures var m := Before(h, n); var id := h[c].op.id;
      id in m.sessions ==> m.sessions[id].visitor == h[c].op.visitor && m.sessions[id].kind == h[c].op.kind
  {
    CommitStep(limits, h, clock, c);
    CreationStep(limits, Before(h, c), h[c].op, h[c].at);
    LifeMovesForward(limits, h, clock, h[c].op.id, c + 1, n);
  }

  lemma CreationTakesSlot(limits: Limits, h: History, clock: int, d: nat)
    requires d < |h| && History?(limits, h, clock) && Creates(limits, h, d)
    ensures var m := Before(h, d + 1); var key := (h[d].op.visitor, h[d].op.kind);
      key in m.latest && m.latest[key] == h[d].op.id
  {
    CommitStep(limits, h, clock, d);
    CreationStep(limits, Before(h, d), h[d].op, h[d].at);
  }

  lemma SupersededLosesSlot(limits: Limits, h: History, clock: int, c: nat, d: nat)
    requires c < d < |h| && History?(limits, h, clock) && FreshIds(limits, h) && Creates(limits, h, c) && Creates(limits, h, d)
    requires h[c].op.visitor == h[d].op.visitor && h[c].op.kind == h[d].op.kind
    ensures !Latest(Before(h, d + 1), h[c].op.id)
  {
    IdentityKept(limits, h, clock, c, d + 1);
    CreationTakesSlot(limits, h, clock, d);
  }

  /** Every record outlives its expiry, so normalization never deletes a session that holds capacity. */
  lemma HoldersAreKept(limits: Limits, clock: int, steps: seq<Step<Op>>, id: string, now: int)
    ensures var l := Run(Performer(limits), Start(EmptyLedger(), clock), steps).value;
      id in l.sessions && HoldsCapacity(l.sessions[id], now) ==> id in Normalize(l, now).sessions
  {
    CommitsAreOrdered(Performer(limits), EmptyLedger(), clock, steps);
    var s := Run(Performer(limits), Start(EmptyLedger(), clock), steps);
    assert s.commits[..|s.commits|] == s.commits;
    if id in s.value.sessions { TombstonesOutlive(limits, s.commits, clock, |s.commits|, id); }
    NormalizeIsSound(s.value, now);
  }

  lemma {:induction false} TombstonesOutlive(limits: Limits, h: History, clock: int, n: nat, id: string)
    requires n <= |h| && History?(limits, h, clock) && id in Before(h, n).sessions
    ensures Before(h, n).sessions[id].expiresAt <= Before(h, n).sessions[id].tombstoneUntil
  {
    var k := n - 1;
    if CreatedAs(limits, h, k, id) {
      CommitStep(limits, h, clock, k);
      CreationStep(limits, Before(h, k), h[k].op, h[k].at);
    } else {
      HistoryStep(limits, h, clock, k, id);
      TombstonesOutlive(limits, h, clock, k, id);
    }
  }

  /** A creation leaves no more sessions holding capacity than the limit. */
  lemma CapacityAtCreation(limits: Limits, clock: int, steps: seq<Step<Op>>, k: nat)
    requires var h := Run(Performer(limits), Start(EmptyLedger(), clock), steps).commits; k < |h| && Creates(limits, h, k)
    ensures var h := Run(Performer(limits), Start(EmptyLedger(), clock), steps).commits;
      |Holding(Before(h, k + 1), h[k].at)| <= limits.active
  {
    CommitsAreOrdered(Performer(limits), EmptyLedger(), clock, steps);
    var h := Run(Performer(limits), Start(EmptyLedger(), clock), steps).commits;
    CommitStep(limits, h, clock, k);
    CreationStep(limits, Before(h, k), h[k].op, h[k].at);
  }
}
