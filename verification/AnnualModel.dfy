/**
 The annual reference model (packages/sdk/src/annual-reference.ts, class AnnualReferenceModel): a mutable
 series of paired claims with an event journal, finalization and redemption.

 Each operation is a function from a state to the next state and an outcome, written in the order of the
 source: where the source changes a field before a check that may throw, so does the function. The run
 theorems show that those late checks never fire.
 */
module AnnualModel {
  import opened Prelude
  import opened SdkArithmetic
  import opened RetentionIndex
  import Redemption
  import OnChain = OnChainMath

  type Side = Redemption.Side

  const U64_MAX: nat := 0xffff_ffff_ffff_ffff
  const MAX_EVENT_IDS: nat := 64

  datatype Error = InvalidTime | InvalidAmount | InvalidAccount | InvalidEvent | EventLimit | RevisionConflict
                 | DepositsClosed | InsufficientBalance | NotMature | IncompleteJournal | FinalizedError
                 | PostFinalizedAmendment | ZeroPayout | InvalidIdentity | CustodyBlocked | CustodyDeficit

  datatype Recorded = Accepted | Idempotent

  datatype Account = Account(collateral: nat, pt: nat, dr: nat)

  datatype Snapshot = Snapshot(accountable: nat, index: Rational, ptPool: nat, drPool: nat, denominator: nat)

  datatype Column = CollateralColumn | PtColumn | DrColumn

  function Cell(a: Account, column: Column): nat
  {
    match column
    case CollateralColumn => a.collateral
    case PtColumn => a.pt
    case DrColumn => a.dr
  }

  function ColumnOf(side: Side): Column { if side.Pt? then PtColumn else DrColumn }

  function Balance(a: Account, side: Side): nat { Cell(a, ColumnOf(side)) }

  function WithBalance(a: Account, side: Side, value: nat): Account
  {
    if side.Pt? then a.(pt := value) else a.(dr := value)
  }

  // ----- sums over accounts -----

  ghost function Total(ids: seq<string>, accounts: map<string, Account>, column: Column): nat
    requires forall i | 0 <= i < |ids| :: ids[i] in accounts
  {
    if ids == [] then 0
    else Total(ids[..|ids| - 1], accounts, column) + Cell(accounts[ids[|ids| - 1]], column)
  }

  lemma {:induction false} TotalUnchanged(ids: seq<string>, accounts: map<string, Account>, id: string, a: Account, column: Column)
    requires forall i | 0 <= i < |ids| :: ids[i] in accounts && ids[i] != id
    ensures Total(ids, accounts[id := a], column) == Total(ids, accounts, column)
  {
    if ids != [] { TotalUnchanged(ids[..|ids| - 1], accounts, id, a, column); }
  }

  /** Rewriting one account moves each total by that account's change; no account exceeds the total. */
  lemma {:induction false} TotalUpdate(ids: seq<string>, accounts: map<string, Account>, id: string, a: Account, column: Column)
    requires (forall i | 0 <= i < |ids| :: ids[i] in accounts) && Distinct(ids) && id in ids
    ensures Total(ids, accounts[id := a], column) == Total(ids, accounts, column) - Cell(accounts[id], column) + Cell(a, column)
    ensures Cell(accounts[id], column) <= Total(ids, accounts, column)
  {
    var k := |ids| - 1;
    if ids[k] == id {
      TotalUnchanged(ids[..k], accounts, id, a, column);
    } else {
      assert id in ids[..k];
      TotalUpdate(ids[..k], accounts, id, a, column);
    }
  }

  lemma {:induction false} TotalZero(ids: seq<string>, accounts: map<string, Account>, column: Column)
    requires forall i | 0 <= i < |ids| :: ids[i] in accounts && accounts[ids[i]] == Account(0, 0, 0)
    ensures Total(ids, accounts, column) == 0
  {
    if ids != [] { TotalZero(ids[..|ids| - 1], accounts, column); }
  }

  // ----- the state -----

  /** What the constructor fixes. Start and maturity are the first second of the year and of the next. */
  datatype Config = Config(term: Term, start: int, maturity: int, ids: seq<string>)

  datatype State = State(
    accountable: int, ptSupply: int, drSupply: int, burnedPt: nat, burnedDr: nat, redeemedPt: nat, redeemedDr: nat,
    custody: int, donations: nat, blocked: bool, accounts: map<string, Account>,
    eventOrder: seq<string>, events: Journal, snapshot: Option<Snapshot>, remainingPt: nat, remainingDr: nat)

  function Supply(s: State, side: Side): int { if side.Pt? then s.ptSupply else s.drSupply }
  function Burned(s: State, side: Side): nat { if side.Pt? then s.burnedPt else s.burnedDr }
  function Redeemed(s: State, side: Side): nat { if side.Pt? then s.redeemedPt else s.redeemedDr }
  function Remaining(s: State, side: Side): nat { if side.Pt? then s.remainingPt else s.remainingDr }

  function WithSupply(s: State, side: Side, value: int): State { if side.Pt? then s.(ptSupply := value) else s.(drSupply := value) }
  function WithBurned(s: State, side: Side, value: nat): State { if side.Pt? then s.(burnedPt := value) else s.(burnedDr := value) }
  function WithRedeemed(s: State, side: Side, value: nat): State { if side.Pt? then s.(redeemedPt := value) else s.(redeemedDr := value) }
  function WithRemaining(s: State, side: Side, value: nat): State { if side.Pt? then s.(remainingPt := value) else s.(remainingDr := value) }
  function WithAccount(s: State, id: string, a: Account): State { s.(accounts := s.accounts[id := a]) }

  function Pool(snap: Snapshot, side: Side): nat { if side.Pt? then snap.ptPool else snap.drPool }

  function Obligation(s: State): int
  {
    if s.snapshot.Some? then s.remainingPt + s.remainingDr else s.accountable
  }

  function Initial(cfg: Config): State
  {
    State(0, 0, 0, 0, 0, 0, 0, 0, 0, false, map id | id in cfg.ids :: Account(0, 0, 0), [], map[], None, 0, 0)
  }

  // ----- the operations -----

  predicate IsAmount(raw: int) { 1 <= raw <= U64_MAX }
  predicate IsNow(now: int) { 0 <= now <= MAX_SAFE_INTEGER }
  predicate KnownAccount(s: State, id: string) { CheckedText(id) && id in s.accounts }

  function CustodyError(s: State): Option<Error>
  {
    if s.blocked then Some(CustodyBlocked) else if s.custody < Obligation(s) then Some(CustodyDeficit) else None
  }

  function Deposit(cfg: Config, s: State, id: string, raw: int, now: int): (State, Result<int, Error>)
  {
    if !KnownAccount(s, id) then (s, Err(InvalidAccount))
    else if !IsAmount(raw) then (s, Err(InvalidAmount))
    else if !IsNow(now) then (s, Err(InvalidTime))
    else if s.snapshot.Some? then (s, Err(FinalizedError))
    else if now >= cfg.start then (s, Err(DepositsClosed))
    else if CustodyError(s).Some? then (s, Err(CustodyError(s).value))
    else
      var a := s.accounts[id];
      if s.accountable + raw > U64_MAX || s.ptSupply + raw > U64_MAX || s.drSupply + raw > U64_MAX
         || s.custody + raw > U64_MAX || a.pt + raw > U64_MAX || a.dr + raw > U64_MAX then (s, Err(InvalidAmount))
      else (s.(accountable := s.accountable + raw, ptSupply := s.ptSupply + raw, drSupply := s.drSupply + raw,
               custody := s.custody + raw, accounts := s.accounts[id := a.(pt := a.pt + raw, dr := a.dr + raw)]), Ok(raw))
  }

  /** How validateEvent refuses a record, in its order: ill-formed texts are identity errors, all else event errors. */
  function RecordError(term: Term, r: Record): (e: Option<Error>)
    ensures e.None? <==> ValidRecord(term, r)
    ensures e == Some(InvalidIdentity) <==>
      !CheckedText(r.id) || (0 <= r.revision <= MAX_SAFE_INTEGER && !(CheckedText(r.chain) && CheckedText(r.issuer) && CheckedText(r.mint)))
    ensures e.Some? ==> e.value.InvalidIdentity? || e.value.InvalidEvent?
  {
    if !CheckedText(r.id) then Some(InvalidIdentity)
    else if !(0 <= r.revision <= MAX_SAFE_INTEGER) then Some(InvalidEvent)
    else if !CheckedText(r.chain) || !CheckedText(r.issuer) || !CheckedText(r.mint) then Some(InvalidIdentity)
    else if !ValidRecord(term, r) then Some(InvalidEvent)
    else None
  }

  function RecordEvent(cfg: Config, s: State, record: Record): (State, Result<Recorded, Error>)
  {
    if s.snapshot.Some? then (s, Err(PostFinalizedAmendment))
    else if RecordError(cfg.term, record).Some? then (s, Err(RecordError(cfg.term, record).value))
    else if record.id in s.events && record == s.events[record.id] then (s, Ok(Idempotent))
    else if record.id in s.events && record.revision <= s.events[record.id].revision then (s, Err(RevisionConflict))
    else if record.id !in s.events && |s.eventOrder| >= MAX_EVENT_IDS then (s, Err(EventLimit))
    else (s.(events := s.events[record.id := record],
             eventOrder := if record.id in s.events then s.eventOrder else s.eventOrder + [record.id]), Ok(Accepted))
  }

  function Transfer(s: State, from: string, to: string, side: Side, raw: int): (State, Result<int, Error>)
  {
    if !KnownAccount(s, from) || !KnownAccount(s, to) then (s, Err(InvalidAccount))
    else if !IsAmount(raw) then (s, Err(InvalidAmount))
    else if from == to then (s, Err(InvalidAccount))
    else
      var a, b := s.accounts[from], s.accounts[to];
      if Balance(a, side) < raw then (s, Err(InsufficientBalance))
      else if Balance(b, side) + raw > U64_MAX then (s, Err(InvalidAmount))
      else (WithAccount(WithAccount(s, from, WithBalance(a, side, Balance(a, side) - raw)), to, WithBalance(b, side, Balance(b, side) + raw)), Ok(raw))
  }

  function Recombine(s: State, id: string, raw: int): (State, Result<int, Error>)
  {
    if s.snapshot.Some? then (s, Err(FinalizedError))
    else if !KnownAccount(s, id) then (s, Err(InvalidAccount))
    else if !IsAmount(raw) then (s, Err(InvalidAmount))
    else
      var a := s.accounts[id];
      if a.pt < raw || a.dr < raw then (s, Err(InsufficientBalance))
      else if CustodyError(s).Some? then (s, Err(CustodyError(s).value))
      else if a.collateral + raw > U64_MAX then (s, Err(InvalidAmount))
      else (s.(ptSupply := s.ptSupply - raw, drSupply := s.drSupply - raw, accountable := s.accountable - raw,
               custody := s.custody - raw, accounts := s.accounts[id := Account(a.collateral + raw, a.pt - raw, a.dr - raw)]), Ok(raw))
  }

  /** The balance and the supply are reduced before the overflow check of the burned counter. */
  function Burn(s: State, id: string, side: Side, raw: int): (State, Result<int, Error>)
  {
    if !KnownAccount(s, id) then (s, Err(InvalidAccount))
    else if !IsAmount(raw) then (s, Err(InvalidAmount))
    else
      var a := s.accounts[id];
      if Balance(a, side) < raw then (s, Err(InsufficientBalance))
      else
        var taken := WithSupply(WithAccount(s, id, WithBalance(a, side, Balance(a, side) - raw)), side, Supply(s, side) - raw);
        if Burned(s, side) + raw > U64_MAX then (taken, Err(InvalidAmount))
        else (WithBurned(taken, side, Burned(s, side) + raw), Ok(raw))
  }

  predicate Complete(r: Record)
  {
    r.exDate.Some? && r.finalized && !r.status.Pending? && !r.status.Unsupported?
  }

  predicate AllComplete(s: State)
  {
    forall i | 0 <= i < |s.eventOrder| :: s.eventOrder[i] in s.events && Complete(s.events[s.eventOrder[i]])
  }

  /** currentIndex of the recorded events. */
  function IndexNow(cfg: Config, s: State): (index: Rational)
    requires JournalOk(cfg, s)
    ensures 0 < index.numerator <= index.denominator
  {
    ValidWeights(cfg.term, s.events);
    assert Lists(s.eventOrder, WeightsOf(cfg.term, s.events));
    IndexSpec(s.eventOrder, WeightsOf(cfg.term, s.events));
    Index(s.eventOrder, WeightsOf(cfg.term, s.events))
  }

  /** The pools of previewAllocation before finalization. */
  function Allocation(cfg: Config, s: State): (nat, nat)
    requires JournalOk(cfg, s) && s.accountable >= 0
  {
    var index := IndexNow(cfg, s);
    OnChain.ShareAtMostWhole(s.accountable, index.numerator, index.denominator);
    var dr := OnChain.Share(s.accountable, index.numerator, index.denominator);
    (s.accountable - dr, dr)
  }

  function Finalize(cfg: Config, s: State, now: int, ledgerComplete: bool): (State, Result<Snapshot, Error>)
    requires JournalOk(cfg, s) && s.accountable >= 0
  {
    if !IsNow(now) then (s, Err(InvalidTime))
    else if s.snapshot.Some? then (s, Err(FinalizedError))
    else if now < cfg.maturity then (s, Err(NotMature))
    else if !ledgerComplete || !AllComplete(s) then (s, Err(IncompleteJournal))
    else if CustodyError(s).Some? then (s, Err(CustodyError(s).value))
    else
      var pools := Allocation(cfg, s);
      var snap := Snapshot(s.accountable, IndexNow(cfg, s), pools.0, pools.1, s.accountable);
      (s.(snapshot := Some(snap), remainingPt := pools.0, remainingDr := pools.1), Ok(snap))
  }

  /** What a redemption pays; previewRedemption once its checks pass. */
  function Payout(s: State, snap: Snapshot, side: Side, raw: nat): nat
  {
    if snap.denominator == 0 then 0
    else
      Redemption.EntitledMonotone(Redeemed(s, side), Redeemed(s, side) + raw, Pool(snap, side), snap.denominator);
      Redemption.Entitled(Redeemed(s, side) + raw, Pool(snap, side), snap.denominator)
      - Redemption.Entitled(Redeemed(s, side), Pool(snap, side), snap.denominator)
  }

  function PreviewRedemption(s: State, id: string, side: Side, raw: int): (r: Result<nat, Error>)
    ensures r.Ok? ==> KnownAccount(s, id) && IsAmount(raw) && s.snapshot.Some? && Balance(s.accounts[id], side) >= raw
  {
    if !KnownAccount(s, id) then Err(InvalidAccount)
    else if !IsAmount(raw) then Err(InvalidAmount)
    else if s.snapshot.None? then Err(NotMature)
    else if Balance(s.accounts[id], side) < raw then Err(InsufficientBalance)
    else Ok(Payout(s, s.snapshot.value, side, raw))
  }

  /** The writes of a redemption. The redeemed counter is checked after the balance and the supply have changed. */
  function Settle(s: State, id: string, side: Side, raw: nat, payout: nat): (State, Result<int, Error>)
    requires id in s.accounts && raw <= Balance(s.accounts[id], side) && payout <= Remaining(s, side)
  {
    var a := s.accounts[id];
    var less := WithBalance(a, side, Balance(a, side) - raw);
    var taken := WithSupply(WithAccount(s, id, less), side, Supply(s, side) - raw);
    if Redeemed(s, side) + raw > U64_MAX then (taken, Err(InvalidAmount))
    else (WithAccount(WithRemaining(WithRedeemed(taken, side, Redeemed(s, side) + raw), side, Remaining(s, side) - payout),
                      id, less.(collateral := a.collateral + payout)).(custody := s.custody - payout), Ok(payout))
  }

  function Redeem(s: State, id: string, side: Side, raw: int, allowZero: bool): (State, Result<int, Error>)
  {
    var preview := PreviewRedemption(s, id, side, raw);
    if preview.Err? then (s, Err(preview.error))
    else
      var payout := preview.value;
      if payout == 0 && !allowZero then (s, Err(ZeroPayout))
      else if CustodyError(s).Some? then (s, Err(CustodyError(s).value))
      else if s.accounts[id].collateral + payout > U64_MAX then (s, Err(InvalidAmount))
      else if payout > Remaining(s, side) then (s, Err(CustodyDeficit))
      else Settle(s, id, side, raw, payout)
  }

  function Donate(s: State, raw: int): (State, Result<int, Error>)
  {
    if !IsAmount(raw) || s.custody + raw > U64_MAX || s.donations + raw > U64_MAX then (s, Err(InvalidAmount))
    else (s.(custody := s.custody + raw, donations := s.donations + raw), Ok(raw))
  }

  function ReportActualCustody(s: State, raw: int): (State, Result<int, Error>)
  {
    if 0 <= raw <= U64_MAX then (s.(custody := raw), Ok(raw)) else (s, Err(InvalidAmount))
  }

  // ----- the invariant -----

  ghost predicate JournalOk(cfg: Config, s: State)
  {
    ValidJournal(cfg.term, s.events) && Lists(s.eventOrder, s.events) && Covers(s.eventOrder, s.events)
  }

  ghost predicate AccountsOk(cfg: Config, s: State)
  {
    && Distinct(cfg.ids)
    && (forall i | 0 <= i < |cfg.ids| :: cfg.ids[i] in s.accounts)
    && (forall id | id in s.accounts :: id in cfg.ids)
  }

  ghost function Held(cfg: Config, s: State, column: Column): nat
    requires AccountsOk(cfg, s)
  {
    Total(cfg.ids, s.accounts, column)
  }

  /** Claims of one side: balances sum to the supply, and supply, burned and redeemed make up the accountable amount. */
  ghost predicate SideOk(cfg: Config, s: State, side: Side)
    requires AccountsOk(cfg, s)
  {
    && Held(cfg, s, ColumnOf(side)) == Supply(s, side)
    && Supply(s, side) + Burned(s, side) + Redeemed(s, side) == s.accountable
  }

  /** What is left of a pool is the pool less the entitlement of all claims redeemed so far. */
  ghost predicate PoolOk(s: State, snap: Snapshot, side: Side)
  {
    if snap.denominator == 0 then Remaining(s, side) == 0
    else Redemption.Entitled(Redeemed(s, side), Pool(snap, side), snap.denominator) + Remaining(s, side) == Pool(snap, side)
  }

  ghost predicate PoolsOk(s: State)
  {
    match s.snapshot
    case None => s.redeemedPt == 0 && s.redeemedDr == 0
    case Some(snap) =>
      && snap.denominator == snap.accountable == s.accountable
      && snap.ptPool + snap.drPool == snap.accountable
      && (snap.accountable > 0 ==> snap.ptPool > 0)
      && PoolOk(s, snap, Redemption.Pt) && PoolOk(s, snap, Redemption.Dr)
  }

  ghost predicate StateOk(cfg: Config, s: State)
  {
    && ClaimsOk(cfg, s)
    && 0 <= s.accountable <= U64_MAX && 0 <= s.custody <= U64_MAX
    && JournalOk(cfg, s) && |s.eventOrder| <= MAX_EVENT_IDS
    && PoolsOk(s)
  }

  /** While nobody overwrites the actual figure, custody is the obligation plus the donations. */
  ghost predicate CustodyExact(s: State)
  {
    s.custody == Obligation(s) + s.donations
  }

  lemma InitialOk(cfg: Config)
    requires Distinct(cfg.ids)
    ensures StateOk(cfg, Initial(cfg)) && CustodyExact(Initial(cfg)) && Held(cfg, Initial(cfg), CollateralColumn) == 0
  {
    var s := Initial(cfg);
    TotalZero(cfg.ids, s.accounts, PtColumn);
    TotalZero(cfg.ids, s.accounts, DrColumn);
    TotalZero(cfg.ids, s.accounts, CollateralColumn);
  }

  /** The totals after one account is rewritten, in a state that differs elsewhere as it likes. */
  lemma HeldUpdate(cfg: Config, s: State, t: State, id: string, b: Account)
    requires AccountsOk(cfg, s) && id in s.accounts && t.accounts == s.accounts[id := b]
    ensures AccountsOk(cfg, t)
    ensures Held(cfg, t, PtColumn) == Held(cfg, s, PtColumn) - s.accounts[id].pt + b.pt
    ensures Held(cfg, t, DrColumn) == Held(cfg, s, DrColumn) - s.accounts[id].dr + b.dr
    ensures Held(cfg, t, CollateralColumn) == Held(cfg, s, CollateralColumn) - s.accounts[id].collateral + b.collateral
    ensures s.accounts[id].pt <= Held(cfg, s, PtColumn) && s.accounts[id].dr <= Held(cfg, s, DrColumn)
  {
    TotalUpdate(cfg.ids, s.accounts, id, b, PtColumn);
    TotalUpdate(cfg.ids, s.accounts, id, b, DrColumn);
    TotalUpdate(cfg.ids, s.accounts, id, b, CollateralColumn);
  }

  /** Totals depend on the accounts alone. */
  lemma HeldSame(cfg: Config, s: State, t: State)
    requires AccountsOk(cfg, s) && t.accounts == s.accounts
    ensures AccountsOk(cfg, t)
    ensures Held(cfg, t, PtColumn) == Held(cfg, s, PtColumn) && Held(cfg, t, DrColumn) == Held(cfg, s, DrColumn)
    ensures Held(cfg, t, CollateralColumn) == Held(cfg, s, CollateralColumn)
  {
  }

  lemma JournalSame(cfg: Config, s: State, t: State)
    requires JournalOk(cfg, s) && t.events == s.events && t.eventOrder == s.eventOrder
    ensures JournalOk(cfg, t)
  {
  }

  ghost predicate ClaimsOk(cfg: Config, s: State)
  {
    AccountsOk(cfg, s) && SideOk(cfg, s, Redemption.Pt) && SideOk(cfg, s, Redemption.Dr)
  }

  /** `raw` claims of a side move from supply into the burned or redeemed counters. */
  ghost predicate Leave(s: State, t: State, side: Side, raw: nat)
  {
    && t.accountable == s.accountable
    && t.ptSupply == s.ptSupply - (if side.Pt? then raw else 0)
    && t.drSupply == s.drSupply - (if side.Dr? then raw else 0)
    && t.burnedPt + t.redeemedPt == s.burnedPt + s.redeemedPt + (if side.Pt? then raw else 0)
    && t.burnedDr + t.redeemedDr == s.burnedDr + s.redeemedDr + (if side.Dr? then raw else 0)
  }

  /** One account gives up claims of one side, which are counted as burned or redeemed. */
  lemma ClaimsLeave(cfg: Config, s: State, t: State, id: string, b: Account, side: Side, raw: nat)
    requires ClaimsOk(cfg, s) && id in s.accounts && t.accounts == s.accounts[id := b] && Leave(s, t, side, raw)
    requires b.pt == s.accounts[id].pt - (if side.Pt? then raw else 0) && b.dr == s.accounts[id].dr - (if side.Dr? then raw else 0)
    ensures ClaimsOk(cfg, t)
    ensures Held(cfg, t, CollateralColumn) == Held(cfg, s, CollateralColumn) - s.accounts[id].collateral + b.collateral
  {
    HeldUpdate(cfg, s, t, id, b);
  }

  /** A holder of claims shows that counting them once more stays within the accountable amount. */
  lemma CountersFit(cfg: Config, s: State, id: string, side: Side, raw: nat)
    requires ClaimsOk(cfg, s) && id in s.accounts && raw <= Balance(s.accounts[id], side)
    ensures Burned(s, side) + Redeemed(s, side) + raw <= s.accountable
  {
    HeldUpdate(cfg, s, s.(accounts := s.accounts[id := s.accounts[id]]), id, s.accounts[id]);
  }

  /** What every operation keeps when `inflow` collateral enters from outside. */
  ghost predicate Keeps(cfg: Config, s: State, t: State, inflow: int)
    requires AccountsOk(cfg, s)
  {
    && StateOk(cfg, t)
    && (CustodyExact(s) ==> CustodyExact(t))
    && t.custody + Held(cfg, t, CollateralColumn) == s.custody + Held(cfg, s, CollateralColumn) + inflow
  }

  // ----- one call -----

  datatype Op =
    | DepositOp(id: string, raw: int, now: int)
    | RecordOp(record: Record)
    | TransferOp(id: string, to: string, side: Side, raw: int)
    | RecombineOp(id: string, raw: int)
    | BurnOp(id: string, side: Side, raw: int)
    | FinalizeOp(now: int, ledgerComplete: bool)
    | RedeemOp(id: string, side: Side, raw: int, allowZero: bool)
    | DonateOp(raw: int)
    | BlockOp(blocked: bool)
    | ReportOp(raw: int)

  /** The state after one call, and whether the call succeeded. */
  function Apply(cfg: Config, s: State, op: Op): (State, bool)
    requires JournalOk(cfg, s) && s.accountable >= 0
  {
    match op
    case DepositOp(id, raw, now) => var u := Deposit(cfg, s, id, raw, now); (u.0, u.1.Ok?)
    case RecordOp(record) => var u := RecordEvent(cfg, s, record); (u.0, u.1.Ok?)
    case TransferOp(id, to, side, raw) => var u := Transfer(s, id, to, side, raw); (u.0, u.1.Ok?)
    case RecombineOp(id, raw) => var u := Recombine(s, id, raw); (u.0, u.1.Ok?)
    case BurnOp(id, side, raw) => var u := Burn(s, id, side, raw); (u.0, u.1.Ok?)
    case FinalizeOp(now, ledgerComplete) => var u := Finalize(cfg, s, now, ledgerComplete); (u.0, u.1.Ok?)
    case RedeemOp(id, side, raw, allowZero) => var u := Redeem(s, id, side, raw, allowZero); (u.0, u.1.Ok?)
    case DonateOp(raw) => var u := Donate(s, raw); (u.0, u.1.Ok?)
    case BlockOp(blocked) => (s.(blocked := blocked), true)
    case ReportOp(raw) => var u := ReportActualCustody(s, raw); (u.0, u.1.Ok?)
  }

  /** The collateral a call brings in from outside. */
  function Inflow(cfg: Config, s: State, op: Op): int
    requires StateOk(cfg, s)
  {
    if (op.DepositOp? || op.DonateOp?) && Apply(cfg, s, op).1 then op.raw else 0
  }

  /** One call: a failing call changes nothing, and the invariant and the conservation laws are kept. */
  ghost predicate Kept(cfg: Config, s: State, op: Op)
    requires StateOk(cfg, s)
  {
    var u := Apply(cfg, s, op);
    && StateOk(cfg, u.0)
    && (!u.1 ==> u.0 == s)
    && (!op.ReportOp? ==> Keeps(cfg, s, u.0, Inflow(cfg, s, op)))
  }

  lemma Unchanged(cfg: Config, s: State, op: Op)
    requires StateOk(cfg, s) && Apply(cfg, s, op) == (s, false)
    ensures Kept(cfg, s, op)
  {
  }

  lemma Changed(cfg: Config, s: State, op: Op, t: State)
    requires StateOk(cfg, s) && Apply(cfg, s, op) == (t, true)
    requires !op.ReportOp? && Keeps(cfg, s, t, if op.DepositOp? || op.DonateOp? then op.raw else 0)
    ensures Kept(cfg, s, op)
  {
  }

  /** The parts of the invariant put together again. */
  lemma Assemble(cfg: Config, s: State, t: State)
    requires StateOk(cfg, s) && ClaimsOk(cfg, t) && t.events == s.events && t.eventOrder == s.eventOrder
    requires 0 <= t.accountable <= U64_MAX && 0 <= t.custody <= U64_MAX && PoolsOk(t)
    ensures StateOk(cfg, t)
  {
    JournalSame(cfg, s, t);
  }

  lemma PoolsSame(s: State, t: State)
    requires PoolsOk(s) && t.snapshot == s.snapshot && t.redeemedPt == s.redeemedPt && t.redeemedDr == s.redeemedDr
    requires t.remainingPt == s.remainingPt && t.remainingDr == s.remainingDr && (s.snapshot.Some? ==> t.accountable == s.accountable)
    ensures PoolsOk(t)
  {
  }

  lemma DepositKeeps(cfg: Config, s: State, id: string, raw: int, now: int)
    requires StateOk(cfg, s)
    ensures Kept(cfg, s, DepositOp(id, raw, now))
  {
    var op := DepositOp(id, raw, now);
    var (t, r) := Deposit(cfg, s, id, raw, now);
    if r.Ok? {
      DepositedKeeps(cfg, s, id, raw);
      Changed(cfg, s, op, t);
    } else {
      Unchanged(cfg, s, op);
    }
  }

  lemma DepositedKeeps(cfg: Config, s: State, id: string, raw: nat)
    requires StateOk(cfg, s) && id in s.accounts && s.snapshot.None?
    requires s.accountable + raw <= U64_MAX && s.custody + raw <= U64_MAX
    ensures var a := s.accounts[id];
      Keeps(cfg, s, s.(accountable := s.accountable + raw, ptSupply := s.ptSupply + raw, drSupply := s.drSupply + raw,
                       custody := s.custody + raw, accounts := s.accounts[id := a.(pt := a.pt + raw, dr := a.dr + raw)]), raw)
  {
    var a := s.accounts[id];
    var b := a.(pt := a.pt + raw, dr := a.dr + raw);
    var t := s.(accountable := s.accountable + raw, ptSupply := s.ptSupply + raw, drSupply := s.drSupply + raw,
                custody := s.custody + raw, accounts := s.accounts[id := b]);
    HeldUpdate(cfg, s, t, id, b);
    PoolsSame(s, t);
    Assemble(cfg, s, t);
  }

  /** The state after an accepted record. */
  ghost function Journaled(s: State, record: Record): State
  {
    s.(events := s.events[record.id := record],
       eventOrder := if record.id in s.events then s.eventOrder else s.eventOrder + [record.id])
  }

  lemma JournalGrows(cfg: Config, s: State, record: Record)
    requires JournalOk(cfg, s) && ValidRecord(cfg.term, record)
    ensures JournalOk(cfg, Journaled(s, record))
  {
    JournalWith(cfg.term, s.events, record);
    ListsWith(s.eventOrder, s.events, record.id, record);
  }

  lemma RecordCases(cfg: Config, s: State, record: Record)
    ensures var u := RecordEvent(cfg, s, record);
      || (u.0 == s && u.1 != Ok(Accepted))
      || (u.1 == Ok(Accepted) && ValidRecord(cfg.term, record) && u.0 == Journaled(s, record)
          && (record.id in s.events || |s.eventOrder| < MAX_EVENT_IDS))
  {
  }

  lemma RecordEventKeeps(cfg: Config, s: State, record: Record)
    requires StateOk(cfg, s)
    ensures Kept(cfg, s, RecordOp(record))
    ensures RecordEvent(cfg, s, record).1 == Ok(Idempotent) ==> RecordEvent(cfg, s, record).0 == s
  {
    RecordCases(cfg, s, record);
    if RecordEvent(cfg, s, record).1 == Ok(Accepted) {
      JournalGrows(cfg, s, record);
      JournalChanged(cfg, s, Journaled(s, record));
      Changed(cfg, s, RecordOp(record), Journaled(s, record));
    } else if RecordEvent(cfg, s, record).1.Err? {
      Unchanged(cfg, s, RecordOp(record));
    } else {
      Changed(cfg, s, RecordOp(record), s);
    }
  }

  lemma JournalChanged(cfg: Config, s: State, t: State)
    requires StateOk(cfg, s) && t == s.(events := t.events, eventOrder := t.eventOrder)
    requires JournalOk(cfg, t) && |t.eventOrder| <= MAX_EVENT_IDS
    ensures Keeps(cfg, s, t, 0)
  {
    HeldSame(cfg, s, t);
  }

  lemma TransferCases(s: State, from: string, to: string, side: Side, raw: int)
    ensures var u := Transfer(s, from, to, side, raw);
      || (u.0 == s && u.1.Err?)
      || (u.1.Ok? && from != to && from in s.accounts && to in s.accounts && 0 <= raw <= Balance(s.accounts[from], side)
          && u.0 == Moved(s, from, to, side, raw))
  {
  }

  /** The state after a successful transfer. */
  ghost function Moved(s: State, from: string, to: string, side: Side, raw: nat): State
    requires from in s.accounts && to in s.accounts && raw <= Balance(s.accounts[from], side)
  {
    var a, b := s.accounts[from], s.accounts[to];
    WithAccount(WithAccount(s, from, WithBalance(a, side, Balance(a, side) - raw)), to, WithBalance(b, side, Balance(b, side) + raw))
  }

  lemma MovedKeeps(cfg: Config, s: State, from: string, to: string, side: Side, raw: nat)
    requires StateOk(cfg, s) && from in s.accounts && to in s.accounts && from != to && raw <= Balance(s.accounts[from], side)
    ensures Keeps(cfg, s, Moved(s, from, to, side, raw), 0)
  {
    var t := Moved(s, from, to, side, raw);
    var mid := WithAccount(s, from, t.accounts[from]);
    HeldUpdate(cfg, s, mid, from, t.accounts[from]);
    HeldUpdate(cfg, mid, t, to, t.accounts[to]);
    PoolsSame(s, t);
    Assemble(cfg, s, t);
  }

  lemma TransferKeeps(cfg: Config, s: State, from: string, to: string, side: Side, raw: int)
    requires StateOk(cfg, s)
    ensures Kept(cfg, s, TransferOp(from, to, side, raw))
  {
    TransferCases(s, from, to, side, raw);
    if Transfer(s, from, to, side, raw).1.Ok? {
      MovedKeeps(cfg, s, from, to, side, raw);
      Changed(cfg, s, TransferOp(from, to, side, raw), Moved(s, from, to, side, raw));
    } else {
      Unchanged(cfg, s, TransferOp(from, to, side, raw));
    }
  }

  lemma RecombinedKeeps(cfg: Config, s: State, id: string, raw: nat)
    requires StateOk(cfg, s) && id in s.accounts && s.snapshot.None? && s.custody >= s.accountable
    requires raw <= s.accounts[id].pt && raw <= s.accounts[id].dr
    ensures var a := s.accounts[id];
      Keeps(cfg, s, s.(ptSupply := s.ptSupply - raw, drSupply := s.drSupply - raw, accountable := s.accountable - raw,
                       custody := s.custody - raw, accounts := s.accounts[id := Account(a.collateral + raw, a.pt - raw, a.dr - raw)]), 0)
  {
    var a := s.accounts[id];
    var b := Account(a.collateral + raw, a.pt - raw, a.dr - raw);
    var t := s.(ptSupply := s.ptSupply - raw, drSupply := s.drSupply - raw, accountable := s.accountable - raw,
                custody := s.custody - raw, accounts := s.accounts[id := b]);
    CountersFit(cfg, s, id, Redemption.Pt, raw);
    HeldUpdate(cfg, s, t, id, b);
    PoolsSame(s, t);
    Assemble(cfg, s, t);
  }

  lemma RecombineKeeps(cfg: Config, s: State, id: string, raw: int)
    requires StateOk(cfg, s)
    ensures Kept(cfg, s, RecombineOp(id, raw))
  {
    var (t, r) := Recombine(s, id, raw);
    if r.Ok? {
      RecombinedKeeps(cfg, s, id, raw);
      Changed(cfg, s, RecombineOp(id, raw), t);
    } else {
      Unchanged(cfg, s, RecombineOp(id, raw));
    }
  }

  /** The state after a successful burn. */
  ghost function AfterBurn(s: State, id: string, side: Side, raw: nat): State
    requires id in s.accounts && raw <= Balance(s.accounts[id], side)
  {
    var b := WithBalance(s.accounts[id], side, Balance(s.accounts[id], side) - raw);
    WithBurned(WithSupply(WithAccount(s, id, b), side, Supply(s, side) - raw), side, Burned(s, side) + raw)
  }

  predicate CanBurn(s: State, id: string, side: Side, raw: int)
  {
    KnownAccount(s, id) && IsAmount(raw) && Balance(s.accounts[id], side) >= raw
  }

  lemma BurnCases(s: State, id: string, side: Side, raw: int)
    ensures var u := Burn(s, id, side, raw);
      if !CanBurn(s, id, side, raw) then u.0 == s && u.1.Err?
      else Burned(s, side) + raw <= U64_MAX ==> u == (AfterBurn(s, id, side, raw), Ok(raw))
  {
  }

  /** The late overflow check of a burn cannot fire, so a failing burn changes nothing. */
  lemma BurnKeeps(cfg: Config, s: State, id: string, side: Side, raw: int)
    requires StateOk(cfg, s)
    ensures Kept(cfg, s, BurnOp(id, side, raw))
  {
    BurnCases(s, id, side, raw);
    if CanBurn(s, id, side, raw) {
      CountersFit(cfg, s, id, side, raw);
      BurnedKeeps(cfg, s, id, side, raw);
      Changed(cfg, s, BurnOp(id, side, raw), AfterBurn(s, id, side, raw));
    } else {
      Unchanged(cfg, s, BurnOp(id, side, raw));
    }
  }

  lemma BurnedKeeps(cfg: Config, s: State, id: string, side: Side, raw: nat)
    requires StateOk(cfg, s) && id in s.accounts && 1 <= raw <= Balance(s.accounts[id], side)
    ensures Keeps(cfg, s, AfterBurn(s, id, side, raw), 0)
  {
    var t := AfterBurn(s, id, side, raw);
    var b := t.accounts[id];
    ClaimsLeave(cfg, s, t, id, b, side, raw);
    PoolsSame(s, t);
    Assemble(cfg, s, t);
  }

  /** The pools add up, and the principal pool is not empty unless there are no claims. */
  lemma AllocationOk(cfg: Config, s: State)
    requires JournalOk(cfg, s) && s.accountable >= 0
    ensures var (pt, dr) := Allocation(cfg, s); pt + dr == s.accountable && (s.accountable > 0 ==> pt > 0)
  {
    var index := IndexNow(cfg, s);
    OnChain.ShareAtMostWhole(s.accountable, index.numerator, index.denominator);
  }

  ghost predicate FreshSnapshot(s: State, snap: Snapshot)
  {
    && snap.denominator == snap.accountable == s.accountable == snap.ptPool + snap.drPool
    && (s.accountable > 0 ==> snap.ptPool > 0)
  }

  /** The state after finalization with a snapshot. */
  ghost function WithSnapshot(s: State, snap: Snapshot): State
  {
    s.(snapshot := Some(snap), remainingPt := snap.ptPool, remainingDr := snap.drPool)
  }

  lemma FinalizeCases(cfg: Config, s: State, now: int, ledgerComplete: bool) returns (snap: Snapshot)
    requires JournalOk(cfg, s) && s.accountable >= 0
    ensures var u := Apply(cfg, s, FinalizeOp(now, ledgerComplete));
      || u == (s, false)
      || (u == (WithSnapshot(s, snap), true) && s.snapshot.None? && s.custody >= s.accountable && FreshSnapshot(s, snap))
  {
    AllocationOk(cfg, s);
    var (t, r) := Finalize(cfg, s, now, ledgerComplete);
    snap := if r.Ok? then r.value else Snapshot(0, Rational(1, 1), 0, 0, 0);
  }

  lemma FinalizeKeeps(cfg: Config, s: State, now: int, ledgerComplete: bool)
    requires StateOk(cfg, s)
    ensures Kept(cfg, s, FinalizeOp(now, ledgerComplete))
  {
    var snap := FinalizeCases(cfg, s, now, ledgerComplete);
    var op := FinalizeOp(now, ledgerComplete);
    if Apply(cfg, s, op) == (s, false) {
      Unchanged(cfg, s, op);
    } else {
      FinalizedKeeps(cfg, s, snap);
      Changed(cfg, s, op, WithSnapshot(s, snap));
    }
  }

  lemma FinalizedKeeps(cfg: Config, s: State, snap: Snapshot)
    requires StateOk(cfg, s) && s.snapshot.None? && s.custody >= s.accountable
    requires FreshSnapshot(s, snap)
    ensures Keeps(cfg, s, WithSnapshot(s, snap), 0)
  {
    var t := WithSnapshot(s, snap);
    HeldSame(cfg, s, t);
    FreshPools(s, snap);
    Assemble(cfg, s, t);
  }

  lemma FreshPools(s: State, snap: Snapshot)
    requires PoolsOk(s) && s.snapshot.None? && s.accountable >= 0 && FreshSnapshot(s, snap)
    ensures PoolsOk(WithSnapshot(s, snap))
  {
    if s.accountable > 0 {
      Redemption.EntitledWhole(snap.ptPool, s.accountable);
      Redemption.EntitledWhole(snap.drPool, s.accountable);
    }
  }

  /** A redemption is covered by the remaining pool; the last claim of a side empties it, and is paid if there is a pool. */
  lemma PayoutCovered(cfg: Config, s: State, id: string, side: Side, raw: nat)
    requires StateOk(cfg, s) && s.snapshot.Some? && id in s.accounts && 1 <= raw <= Balance(s.accounts[id], side)
    ensures s.snapshot.value.denominator > 0
    ensures Redeemed(s, side) + raw <= s.accountable
    ensures Payout(s, s.snapshot.value, side, raw) <= Remaining(s, side)
    ensures Redeemed(s, side) + raw == s.accountable ==>
      && Payout(s, s.snapshot.value, side, raw) == Remaining(s, side)
      && (Pool(s.snapshot.value, side) > 0 ==> Payout(s, s.snapshot.value, side, raw) >= 1)
  {
    var snap := s.snapshot.value;
    CountersFit(cfg, s, id, side, raw);
    assert PoolOk(s, snap, side);
    var pool, d, before := Pool(snap, side), snap.denominator, Redeemed(s, side);
    Redemption.EntitledMonotone(before, before + raw, pool, d);
    Redemption.EntitledAtMostPool(before + raw, pool, d);
    Redemption.EntitledAtMostPool(before, pool, d);
    if before + raw == d { Redemption.EntitledWhole(pool, d); }
  }

  lemma RedeemCases(s: State, id: string, side: Side, raw: int, allowZero: bool)
    requires KnownAccount(s, id) && IsAmount(raw) && s.snapshot.Some? && Balance(s.accounts[id], side) >= raw
    requires Payout(s, s.snapshot.value, side, raw) <= Remaining(s, side) && Redeemed(s, side) + raw <= U64_MAX
    ensures var u := Redeem(s, id, side, raw, allowZero);
      || (u.0 == s && u.1.Err? && (u.1 == Err(CustodyDeficit) ==> s.custody < Obligation(s)))
      || (u.0 == AfterRedeem(s, id, side, raw) && u.1.Ok? && s.custody >= Obligation(s))
  {
  }

  /** Neither the pool check nor the late overflow check of a redemption can fire, so a failing one changes nothing. */
  lemma RedeemKeeps(cfg: Config, s: State, id: string, side: Side, raw: int, allowZero: bool)
    requires StateOk(cfg, s)
    ensures Kept(cfg, s, RedeemOp(id, side, raw, allowZero))
    ensures Redeem(s, id, side, raw, allowZero).1 == Err(CustodyDeficit) ==> s.custody < Obligation(s)
  {
    var op := RedeemOp(id, side, raw, allowZero);
    if KnownAccount(s, id) && IsAmount(raw) && s.snapshot.Some? && Balance(s.accounts[id], side) >= raw {
      PayoutCovered(cfg, s, id, side, raw);
      RedeemCases(s, id, side, raw, allowZero);
      if Redeem(s, id, side, raw, allowZero).1.Ok? {
        RedeemedKeeps(cfg, s, id, side, raw);
        Changed(cfg, s, op, AfterRedeem(s, id, side, raw));
      } else {
        Unchanged(cfg, s, op);
      }
    } else {
      assert Redeem(s, id, side, raw, allowZero).0 == s && Redeem(s, id, side, raw, allowZero).1 != Err(CustodyDeficit);
      Unchanged(cfg, s, op);
    }
  }

  /** The state after a successful redemption. */
  ghost function AfterRedeem(s: State, id: string, side: Side, raw: nat): State
    requires id in s.accounts && s.snapshot.Some? && raw <= Balance(s.accounts[id], side)
    requires Payout(s, s.snapshot.value, side, raw) <= Remaining(s, side)
  {
    var a := s.accounts[id];
    var payout := Payout(s, s.snapshot.value, side, raw);
    var b := WithBalance(a, side, Balance(a, side) - raw).(collateral := a.collateral + payout);
    WithRemaining(WithRedeemed(WithSupply(WithAccount(s, id, b), side, Supply(s, side) - raw), side, Redeemed(s, side) + raw),
                  side, Remaining(s, side) - payout).(custody := s.custody - payout)
  }

  lemma RedeemedKeeps(cfg: Config, s: State, id: string, side: Side, raw: nat)
    requires StateOk(cfg, s) && s.snapshot.Some? && id in s.accounts && 1 <= raw <= Balance(s.accounts[id], side)
    requires Payout(s, s.snapshot.value, side, raw) <= Remaining(s, side)
    requires s.custody >= Obligation(s)
    ensures Keeps(cfg, s, AfterRedeem(s, id, side, raw), 0)
  {
    var t := AfterRedeem(s, id, side, raw);
    PayoutCovered(cfg, s, id, side, raw);
    ClaimsLeave(cfg, s, t, id, t.accounts[id], side, raw);
    RedeemPools(s, t, s.snapshot.value, side, raw);
    Assemble(cfg, s, t);
  }

  lemma RedeemPools(s: State, t: State, snap: Snapshot, side: Side, raw: nat)
    requires PoolsOk(s) && s.snapshot == Some(snap) && snap.denominator > 0 && t.snapshot == s.snapshot && t.accountable == s.accountable
    requires Payout(s, snap, side, raw) <= Remaining(s, side)
    requires Redeemed(t, side) == Redeemed(s, side) + raw && Remaining(t, side) == Remaining(s, side) - Payout(s, snap, side, raw)
    requires forall other: Side | other != side :: Redeemed(t, other) == Redeemed(s, other) && Remaining(t, other) == Remaining(s, other)
    ensures PoolsOk(t)
  {
    assert PoolOk(s, snap, Redemption.Pt) && PoolOk(s, snap, Redemption.Dr);
  }

  lemma DonateKeeps(cfg: Config, s: State, raw: int)
    requires StateOk(cfg, s)
    ensures Kept(cfg, s, DonateOp(raw))
  {
    var t := Donate(s, raw).0;
    HeldSame(cfg, s, t);
    PoolsSame(s, t);
    if Donate(s, raw).1.Ok? { Assemble(cfg, s, t); Changed(cfg, s, DonateOp(raw), t); } else { Unchanged(cfg, s, DonateOp(raw)); }
  }

  lemma BlockKeeps(cfg: Config, s: State, blocked: bool)
    requires StateOk(cfg, s)
    ensures Kept(cfg, s, BlockOp(blocked))
  {
    var t := s.(blocked := blocked);
    HeldSame(cfg, s, t);
    PoolsSame(s, t);
    Assemble(cfg, s, t);
    Changed(cfg, s, BlockOp(blocked), t);
  }

  lemma ReportKeeps(cfg: Config, s: State, raw: int)
    requires StateOk(cfg, s)
    ensures Kept(cfg, s, ReportOp(raw))
  {
    var t := ReportActualCustody(s, raw).0;
    HeldSame(cfg, s, t);
    PoolsSame(s, t);
    Assemble(cfg, s, t);
  }

  /** A failing call changes nothing; every call keeps the invariant. */
  lemma ApplyKeeps(cfg: Config, s: State, op: Op)
    requires StateOk(cfg, s)
    ensures Kept(cfg, s, op)
  {
    match op
    case DepositOp(id, raw, now) => DepositKeeps(cfg, s, id, raw, now);
    case RecordOp(record) => RecordEventKeeps(cfg, s, record);
    case TransferOp(id, to, side, raw) => TransferKeeps(cfg, s, id, to, side, raw);
    case RecombineOp(id, raw) => RecombineKeeps(cfg, s, id, raw);
    case BurnOp(id, side, raw) => BurnKeeps(cfg, s, id, side, raw);
    case FinalizeOp(now, ledgerComplete) => FinalizeKeeps(cfg, s, now, ledgerComplete);
    case RedeemOp(id, side, raw, allowZero) => RedeemKeeps(cfg, s, id, side, raw, allowZero);
    case DonateOp(raw) => DonateKeeps(cfg, s, raw);
    case BlockOp(blocked) => BlockKeeps(cfg, s, blocked);
    case ReportOp(raw) => ReportKeeps(cfg, s, raw);
  }

  // ----- whole runs -----

  function Run(cfg: Config, s: State, ops: seq<Op>): State
    requires StateOk(cfg, s)
    decreases |ops|
  {
    if ops == [] then s
    else
      ApplyKeeps(cfg, s, ops[0]);
      Run(cfg, Apply(cfg, s, ops[0]).0, ops[1..])
  }

  /** The collateral a run brings in from outside. */
  function RunInflow(cfg: Config, s: State, ops: seq<Op>): int
    requires StateOk(cfg, s)
    decreases |ops|
  {
    if ops == [] then 0
    else
      ApplyKeeps(cfg, s, ops[0]);
      Inflow(cfg, s, ops[0]) + RunInflow(cfg, Apply(cfg, s, ops[0]).0, ops[1..])
  }

  ghost predicate NoReports(ops: seq<Op>)
  {
    forall i | 0 <= i < |ops| :: !ops[i].ReportOp?
  }

  /**
   In every reachable state balances sum to supplies, claims are conserved on each side, and each remaining
   pool is the pool less the entitlement of the claims redeemed, however they were split and interleaved.
   Without a custody report, custody is exactly the obligation plus the donations, and custody plus the
   collateral returned to accounts is exactly what was deposited and donated.
   */
  lemma {:induction false} RunOk(cfg: Config, s: State, ops: seq<Op>)
    requires StateOk(cfg, s)
    ensures StateOk(cfg, Run(cfg, s, ops))
    ensures NoReports(ops) && CustodyExact(s) ==> CustodyExact(Run(cfg, s, ops))
    ensures NoReports(ops) ==> var t := Run(cfg, s, ops);
      t.custody + Held(cfg, t, CollateralColumn) == s.custody + Held(cfg, s, CollateralColumn) + RunInflow(cfg, s, ops)
    decreases |ops|
  {
    if ops != [] {
      ApplyKeeps(cfg, s, ops[0]);
      assert NoReports(ops) ==> !ops[0].ReportOp? && NoReports(ops[1..]);
      RunOk(cfg, Apply(cfg, s, ops[0]).0, ops[1..]);
    }
  }

  /** From the empty model: total payouts of a side are its entitlement, and redeeming every claim pays the whole pool. */
  lemma PaidExactly(cfg: Config, ops: seq<Op>, side: Side)
    requires Distinct(cfg.ids)
    ensures StateOk(cfg, Initial(cfg))
    ensures var s := Run(cfg, Initial(cfg), ops);
      s.snapshot.Some? && s.accountable > 0 ==>
        var snap := s.snapshot.value;
        && snap.denominator == s.accountable && snap.ptPool + snap.drPool == s.accountable
        && Pool(snap, side) - Remaining(s, side) == Redemption.Entitled(Redeemed(s, side), Pool(snap, side), snap.denominator)
        && (Redeemed(s, side) == s.accountable ==> Remaining(s, side) == 0)
  {
    InitialOk(cfg);
    RunOk(cfg, Initial(cfg), ops);
    var s := Run(cfg, Initial(cfg), ops);
    if s.snapshot.Some? && s.accountable > 0 {
      assert PoolOk(s, s.snapshot.value, side);
      Redemption.EntitledWhole(Pool(s.snapshot.value, side), s.accountable);
    }
  }

  /** The terms a finalized series can no longer change. */
  ghost predicate SameTerms(s: State, t: State)
  {
    t.snapshot == s.snapshot && t.events == s.events && t.accountable == s.accountable
  }

  lemma ClaimOpsKeepTerms(s: State, id: string, to: string, side: Side, raw: int, allowZero: bool)
    ensures SameTerms(s, Transfer(s, id, to, side, raw).0) && SameTerms(s, Burn(s, id, side, raw).0)
    ensures SameTerms(s, Redeem(s, id, side, raw, allowZero).0)
  {
  }

  lemma SeriesOpsRefused(cfg: Config, s: State, id: string, raw: int, now: int, record: Record)
    requires s.snapshot.Some?
    ensures Deposit(cfg, s, id, raw, now).0 == s && RecordEvent(cfg, s, record).0 == s && Recombine(s, id, raw).0 == s
  {
  }

  lemma FinalizeRefused(cfg: Config, s: State, now: int, ledgerComplete: bool)
    requires JournalOk(cfg, s) && s.accountable >= 0 && s.snapshot.Some?
    ensures Finalize(cfg, s, now, ledgerComplete).0 == s
  {
  }

  lemma ClaimOpKeepsTerms(cfg: Config, s: State, op: Op)
    requires JournalOk(cfg, s) && s.accountable >= 0 && (op.TransferOp? || op.BurnOp? || op.RedeemOp?)
    ensures SameTerms(s, Apply(cfg, s, op).0)
  {
    match op
    case TransferOp(id, to, side, raw) => ClaimOpsKeepTerms(s, id, to, side, raw, false);
    case BurnOp(id, side, raw) => ClaimOpsKeepTerms(s, id, id, side, raw, false);
    case RedeemOp(id, side, raw, allowZero) => ClaimOpsKeepTerms(s, id, id, side, raw, allowZero);
  }

  lemma SeriesOpKeepsTerms(cfg: Config, s: State, op: Op)
    requires JournalOk(cfg, s) && s.accountable >= 0 && s.snapshot.Some? && (op.DepositOp? || op.RecordOp? || op.RecombineOp?)
    ensures SameTerms(s, Apply(cfg, s, op).0)
  {
    var any := Record("", 0, "", "", "", None, Pending, "", "", false);
    match op
    case DepositOp(id, raw, now) => SeriesOpsRefused(cfg, s, id, raw, now, any);
    case RecordOp(record) => SeriesOpsRefused(cfg, s, "", 0, 0, record);
    case RecombineOp(id, raw) => SeriesOpsRefused(cfg, s, id, raw, 0, any);
  }

  lemma CustodyOpsKeepTerms(s: State, raw: int)
    ensures SameTerms(s, Donate(s, raw).0) && SameTerms(s, ReportActualCustody(s, raw).0)
  {
  }

  lemma SnapshotKept(cfg: Config, s: State, op: Op)
    requires JournalOk(cfg, s) && s.accountable >= 0 && s.snapshot.Some?
    ensures SameTerms(s, Apply(cfg, s, op).0)
  {
    match op
    case FinalizeOp(now, ledgerComplete) => FinalizeRefused(cfg, s, now, ledgerComplete);
    case DonateOp(raw) => CustodyOpsKeepTerms(s, raw);
    case BlockOp(blocked) =>
    case ReportOp(raw) => CustodyOpsKeepTerms(s, raw);
    case TransferOp(_, _, _, _) => ClaimOpKeepsTerms(cfg, s, op);
    case BurnOp(_, _, _) => ClaimOpKeepsTerms(cfg, s, op);
    case RedeemOp(_, _, _, _) => ClaimOpKeepsTerms(cfg, s, op);
    case _ => SeriesOpKeepsTerms(cfg, s, op);
  }

  /** Once finalized, the pools can never be repriced. */
  lemma {:induction false} SnapshotFrozen(cfg: Config, s: State, ops: seq<Op>)
    requires StateOk(cfg, s) && s.snapshot.Some?
    ensures SameTerms(s, Run(cfg, s, ops))
    decreases |ops|
  {
    if ops != [] {
      ApplyKeeps(cfg, s, ops[0]);
      SnapshotKept(cfg, s, ops[0]);
      SnapshotFrozen(cfg, Apply(cfg, s, ops[0]).0, ops[1..]);
    }
  }
}
