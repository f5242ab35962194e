/**
 The per-session request meter (packages/hosted-broker/src/ledger.ts: charge, closeMeter, initializeMeter).
 Charges and closes from any number of workers race through the clocked compare-and-swap store.
 */
module SessionMeter {
  import opened Prelude
  import opened ClockedStore

  const MINUTE: int := 60_000

  datatype Kind = Wallet | Guided

  /** The identity a meter is bound to; runtimeId is empty until a session is ready. */
  datatype Binding = Binding(id: string, visitor: string, kind: Kind, provider: string, runtimeId: string, expiresAt: int)

  datatype Meter = Meter(binding: Binding, open: bool, forwarded: nat, mutations: nat, window: int, minuteCount: nat)

  datatype Limits = Limits(requestsTotal: nat, requestsPerMinute: nat, mutationsTotal: nat)

  datatype MeterError = Unavailable | Conflict | Budget | AlreadyClosed

  /** Initialization names the binding it wants; charges and closes carry the requester's snapshot of the session. */
  datatype MeterOp = Initialize(binding: Binding) | Charge(snapshot: Binding, count: int) | Close(snapshot: Binding)

  /** The meter a ready session starts with. */
  function Fresh(binding: Binding, now: int): Meter
  {
    Meter(binding, true, 0, 0, now / MINUTE, 0)
  }

  function ChargeMeter(limits: Limits, m: Meter, snapshot: Binding, count: int, now: int): Result<Meter, MeterError>
  {
    if count < 0 then Err(Budget)
    else if m.binding != snapshot || !m.open then Err(Unavailable)
    else if m.binding.expiresAt <= now then Err(Conflict)
    else
      var minuteCount := if m.window != now / MINUTE then 0 else m.minuteCount;
      if m.forwarded >= limits.requestsTotal || minuteCount >= limits.requestsPerMinute
         || m.mutations + count > limits.mutationsTotal then Err(Budget)
      else Ok(m.(forwarded := m.forwarded + 1, mutations := m.mutations + count, window := now / MINUTE, minuteCount := minuteCount + 1))
  }

  /** Closing a closed meter writes nothing. */
  function CloseMeter(m: Meter, snapshot: Binding): Result<Meter, MeterError>
  {
    if m.binding != snapshot then Err(Unavailable)
    else if !m.open then Err(AlreadyClosed)
    else Ok(m.(open := false))
  }

  /** The store holds no meter at first. Creating one fails once there is one; nothing is written then. */
  function PerformOp(limits: Limits, op: MeterOp, stored: Option<Meter>, now: int): Result<Option<Meter>, MeterError>
  {
    match op
    case Initialize(binding) => if stored.None? then Ok(Some(Fresh(binding, now))) else Err(Unavailable)
    case Charge(snapshot, count) => if stored.None? then Err(Unavailable) else Lifted(ChargeMeter(limits, stored.value, snapshot, count, now))
    case Close(snapshot) => if stored.None? then Err(Unavailable) else Lifted(CloseMeter(stored.value, snapshot))
  }

  function Lifted(r: Result<Meter, MeterError>): Result<Option<Meter>, MeterError>
  {
    if r.Ok? then Ok(Some(r.value)) else Err(r.error)
  }

  function Performer(limits: Limits): Perform<MeterOp, Option<Meter>, MeterError>
  {
    (op, m, now) => PerformOp(limits, op, m, now)
  }

  type History = seq<Commit<MeterOp, Option<Meter>>>

  function Charges(h: History): nat
  {
    if h == [] then 0 else Charges(h[..|h| - 1]) + if h[|h| - 1].op.Charge? then 1 else 0
  }

  function Mutations(h: History): int
  {
    if h == [] then 0 else Mutations(h[..|h| - 1]) + if h[|h| - 1].op.Charge? then h[|h| - 1].op.count else 0
  }

  function ChargesIn(h: History, window: int): nat
  {
    if h == [] then 0
    else ChargesIn(h[..|h| - 1], window) + if h[|h| - 1].op.Charge? && h[|h| - 1].at / MINUTE == window then 1 else 0
  }

  /** From commit `from` up to commit n there are only charges. */
  ghost predicate OnlyCharges(h: History, from: nat, n: int)
  {
    forall i | from <= i < n && i < |h| :: h[i].op.Charge?
  }

  /** One initialization, then charges, then perhaps one close. */
  ghost predicate Shape(h: History, open: bool)
  {
    h != [] && h[0].op.Initialize? && OnlyCharges(h, 1, if open then |h| else |h| - 1) && (open || (|h| > 1 && h[|h| - 1].op.Close?))
  }

  /** Every charge and close names the binding of the creation, and every charge comes before it expires. */
  ghost predicate Bound(h: History)
    requires h != [] && h[0].op.Initialize?
  {
    forall i | 1 <= i < |h| ::
      match h[i].op
      case Initialize(_) => false
      case Charge(snapshot, count) => snapshot == h[0].op.binding && 0 <= count && h[i].at < snapshot.expiresAt
      case Close(snapshot) => snapshot == h[0].op.binding
  }

  /** The meter counts exactly the charges granted so far, and none of the limits is exceeded. */
  ghost predicate Counts(limits: Limits, h: History, m: Meter)
  {
    && Shape(h, m.open) && m.binding == h[0].op.binding && Bound(h)
    && m.forwarded == Charges(h) <= limits.requestsTotal
    && m.mutations == Mutations(h) <= limits.mutationsTotal
    && m.minuteCount == ChargesIn(h, m.window)
    && (forall w :: ChargesIn(h, w) <= limits.requestsPerMinute)
    && (forall w | w > m.window :: ChargesIn(h, w) == 0)
  }

  lemma FirstCommit(limits: Limits, h: History, clock: int)
    requires |h| == 1 && Chain(Performer(limits), h, None, clock)
    ensures h[0].value.Some? && Counts(limits, h, h[0].value.value) && h[0].value.value.window <= h[0].at / MINUTE
  {
    assert Linked(Performer(limits), h, None, clock, 0);
    assert PerformOp(limits, h[0].op, None, h[0].at) == Ok(h[0].value);
    assert h[..0] == [];
    forall w ensures ChargesIn(h, w) == 0 { assert ChargesIn(h[..0], w) == 0; }
  }

  lemma NextCommit(limits: Limits, init: History, c: Commit<MeterOp, Option<Meter>>, m: Meter, last: int)
    requires Counts(limits, init, m) && m.window <= last / MINUTE && last <= c.at
    requires PerformOp(limits, c.op, Some(m), c.at) == Ok(c.value)
    ensures c.value.Some? && Counts(limits, init + [c], c.value.value) && c.value.value.window <= c.at / MINUTE
  {
    var h := init + [c];
    assert h[..|h| - 1] == init;
    assert m.open;
    assert forall i | 0 <= i < |init| :: h[i] == init[i];
    forall w ensures ChargesIn(h, w) <= limits.requestsPerMinute {
      assert ChargesIn(init, w) <= limits.requestsPerMinute;
    }
  }

  lemma {:induction false} CountsHold(limits: Limits, clock: int, h: History)
    requires Chain(Performer(limits), h, None, clock)
    ensures h == [] <==> LastValue(h, None).None?
    ensures h != [] ==> Counts(limits, h, LastValue(h, None).value) && LastValue(h, None).value.window <= LastAt(h, clock) / MINUTE
    decreases |h|
  {
    if |h| == 1 {
      FirstCommit(limits, h, clock);
    } else if |h| > 1 {
      var k := |h| - 1;
      ChainPrefix(Performer(limits), h, None, clock, k);
      CountsHold(limits, clock, h[..k]);
      assert Linked(Performer(limits), h, None, clock, k);
      var m := LastValue(h[..k], None).value;
      assert PerformOp(limits, h[k].op, Some(m), h[k].at) == Ok(h[k].value);
      NextCommit(limits, h[..k], h[k], m, LastAt(h[..k], clock));
      assert h == h[..k] + [h[k]];
    }
  }

  /**
   In every interleaving of any number of initializing, charging and closing workers, crashes included, starting from
   no meter: a meter is created once and keeps that binding; the granted charges stay within the total, mutation and
   per-minute limits and are all counted; nothing is charged after a close, and nothing reopens, resets or rebinds it.
   */
  lemma MeterIsSafe(limits: Limits, clock: int, steps: seq<Step<MeterOp>>)
    ensures var s := Run(Performer(limits), Start(None, clock), steps); var h := s.commits;
      && (s.value.None? <==> h == [])
      && (s.value.Some? ==> Counts(limits, h, s.value.value))
  {
    CommitsAreOrdered(Performer(limits), None, clock, steps);
    CountsHold(limits, clock, Run(Performer(limits), Start(None, clock), steps).commits);
  }

  /**
   At every moment of every run: a charge at a clock reading is granted exactly to the binding of the open, unexpired
   meter, while the charges granted so far, in total and in that minute, and their mutations leave room for it.
   */
  lemma ChargeGrantedIff(limits: Limits, clock: int, steps: seq<Step<MeterOp>>, snapshot: Binding, count: int, now: int)
    requires LastAt(Run(Performer(limits), Start(None, clock), steps).commits, clock) <= now
    ensures var s := Run(Performer(limits), Start(None, clock), steps); var h := s.commits;
      PerformOp(limits, Charge(snapshot, count), s.value, now).Ok? <==>
      && h != [] && h[0].op == Initialize(snapshot) && (forall i | 0 <= i < |h| :: !h[i].op.Close?)
      && now < snapshot.expiresAt && 0 <= count
      && Charges(h) < limits.requestsTotal && ChargesIn(h, now / MINUTE) < limits.requestsPerMinute
      && Mutations(h) + count <= limits.mutationsTotal
  {
    MeterIsSafe(limits, clock, steps);
    CommitsAreOrdered(Performer(limits), None, clock, steps);
    var s := Run(Performer(limits), Start(None, clock), steps);
    CountsHold(limits, clock, s.commits);
    if s.value.Some? && s.value.value.window != now / MINUTE { assert ChargesIn(s.commits, now / MINUTE) == 0; }
  }

  /** A close is accepted exactly from the binding of an open meter. */
  lemma CloseAcceptedIff(limits: Limits, clock: int, steps: seq<Step<MeterOp>>, snapshot: Binding, now: int)
    ensures var s := Run(Performer(limits), Start(None, clock), steps); var h := s.commits;
      PerformOp(limits, Close(snapshot), s.value, now).Ok? <==>
      h != [] && h[0].op == Initialize(snapshot) && forall i | 0 <= i < |h| :: !h[i].op.Close?
  {
    MeterIsSafe(limits, clock, steps);
  }

  /** What initializeMeter returns to its caller: it created the meter, or found its own meter still open. */
  function InitializeMeter(stored: Option<Meter>, binding: Binding, now: int): Result<Meter, MeterError>
  {
    if stored.None? then Ok(Fresh(binding, now))
    else if stored.value.binding == binding && stored.value.open then Ok(stored.value)
    else Err(Unavailable)
  }

  lemma {:induction false} HistoryGrows(limits: Limits, s: System<MeterOp, Option<Meter>>, steps: seq<Step<MeterOp>>)
    ensures s.commits <= Run(Performer(limits), s, steps).commits
    decreases |steps|
  {
    if steps != [] { HistoryGrows(limits, Apply(Performer(limits), s, steps[0]), steps[1..]); }
  }

  /**
   Initializers that race or repeat: once a meter exists, whoever initializes at any later moment of the run succeeds
   exactly with the binding of the one commit that created it and while it is open, finds its count of charges intact,
   and its own attempt to create is refused.
   */
  lemma InitializersAgree(limits: Limits, clock: int, steps: seq<Step<MeterOp>>, later: seq<Step<MeterOp>>, binding: Binding, now: int)
    requires Run(Performer(limits), Start(None, clock), steps).value.Some?
    ensures var s := Run(Performer(limits), Start(None, clock), steps); var t := Run(Performer(limits), s, later);
      && t.value.Some? && t.value.value.binding == s.value.value.binding && (t.value.value.open ==> s.value.value.open)
      && Shape(t.commits, t.value.value.open) && PerformOp(limits, Initialize(binding), t.value, now).Err?
      && (InitializeMeter(t.value, binding, now).Ok? <==>
            binding == t.commits[0].op.binding && forall i | 0 <= i < |t.commits| :: !t.commits[i].op.Close?)
      && (InitializeMeter(t.value, binding, now).Ok? ==> InitializeMeter(t.value, binding, now).value.forwarded == Charges(t.commits))
  {
    var s := Run(Performer(limits), Start(None, clock), steps);
    var t := Run(Performer(limits), s, later);
    RunAppend(Performer(limits), Start(None, clock), steps, later);
    MeterIsSafe(limits, clock, steps);
    MeterIsSafe(limits, clock, steps + later);
    HistoryGrows(limits, s, later);
    assert forall i | 0 <= i < |s.commits| :: t.commits[i] == s.commits[i];
  }

  // ----- content etags -----

  /** How often the stored meter has been written. The meter has no revision; creating, charging and closing each count. */
  function Writes(stored: Option<Meter>): int
  {
    if stored.None? then 0 else 1 + stored.value.forwarded + if stored.value.open then 0 else 1
  }

  lemma WritesCount(limits: Limits)
    ensures Raises(Performer(limits), Writes)
  {
  }

  /** No two stored meters of a run are equal, so swapping on a content etag is swapping on a version. */
  lemma MeterContentSwapAgrees(limits: Limits, clock: int, steps: seq<Step<MeterOp>>)
    ensures var s := Run(Performer(limits), Start(None, clock), steps);
      && RunByContent(Performer(limits), Start(None, clock), steps) == s
      && NeverRepeats(s.commits, None) && Writes(s.value) == |s.commits|
  {
    WritesCount(limits);
    ContentSwapAgrees(Performer(limits), None, clock, steps, Writes);
    CommitsAreOrdered(Performer(limits), None, clock, steps);
    var h := Run(Performer(limits), Start(None, clock), steps).commits;
    RankedNeverRepeats(Performer(limits), h, None, clock, Writes);
    RankCounts(Performer(limits), h, None, clock, Writes, |h|);
  }

  /** The clone of a meter that charge changes before swapping it in; on an error the clone is dropped. */
  class MeterClone {
    const binding: Binding
    var open: bool
    var forwarded: nat
    var mutations: nat
    var window: int
    var minuteCount: nat

    ghost function View(): Meter
      reads this
    {
      Meter(binding, open, forwarded, mutations, window, minuteCount)
    }

    constructor (m: Meter)
      ensures View() == m
    {
      binding, open, forwarded, mutations, window, minuteCount := m.binding, m.open, m.forwarded, m.mutations, m.window, m.minuteCount;
    }

    method Charge(limits: Limits, snapshot: Binding, count: int, now: int) returns (error: Option<MeterError>)
      modifies this
      ensures var t := ChargeMeter(limits, old(View()), snapshot, count, now);
        if t.Ok? then error == None && View() == t.value else error == Some(t.error)
    {
      if count < 0 { return Some(Budget); }
      if binding != snapshot || !open { return Some(Unavailable); }
      if binding.expiresAt <= now { return Some(Conflict); }
      var current := now / MINUTE;
      if window != current { window, minuteCount := current, 0; }
      if forwarded >= limits.requestsTotal || minuteCount >= limits.requestsPerMinute || mutations + count > limits.mutationsTotal {
        return Some(Budget);
      }
      forwarded, minuteCount, mutations := forwarded + 1, minuteCount + 1, mutations + count;
      return None;
    }
  }
}
