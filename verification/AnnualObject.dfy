/**
 The model as the object it is in the source (packages/sdk/src/annual-reference.ts): private fields changed
 step by step. Each method is proved to leave exactly the state, and to return exactly the outcome, of the
 corresponding function of module AnnualModel, for every state it may be called in.
 */
module AnnualObject {
  import opened Prelude
  import opened SdkArithmetic
  import opened RetentionIndex
  import opened AnnualModel
  import Redemption
  import OnChain = OnChainMath

  class AnnualReferenceModel {
    const cfg: Config

    var accountable: int
    var ptSupply: int
    var drSupply: int
    var burnedPt: nat
    var burnedDr: nat
    var redeemedPt: nat
    var redeemedDr: nat
    var custody: int
    var donations: nat
    var blocked: bool
    var accounts: map<string, Account>
    var eventOrder: seq<string>
    var events: Journal
    var snapshot: Option<Snapshot>
    var remainingPt: nat
    var remainingDr: nat

    function View(): State
      reads this
    {
      State(accountable, ptSupply, drSupply, burnedPt, burnedDr, redeemedPt, redeemedDr, custody, donations, blocked,
            accounts, eventOrder, events, snapshot, remainingPt, remainingDr)
    }

    constructor (cfg: Config)
      ensures this.cfg == cfg && View() == Initial(cfg)
    {
      this.cfg := cfg;
      accountable, ptSupply, drSupply, custody := 0, 0, 0, 0;
      burnedPt, burnedDr, redeemedPt, redeemedDr, donations, remainingPt, remainingDr := 0, 0, 0, 0, 0, 0, 0;
      blocked, eventOrder, events, snapshot := false, [], map[], None;
      accounts := map id | id in cfg.ids :: Account(0, 0, 0);
    }

    method Deposit(id: string, raw: int, now: int) returns (r: Result<int, Error>)
      modifies this
      ensures (View(), r) == AnnualModel.Deposit(cfg, old(View()), id, raw, now)
    {
      if !KnownAccount(View(), id) { return Err(InvalidAccount); }
      if !IsAmount(raw) { return Err(InvalidAmount); }
      if !IsNow(now) { return Err(InvalidTime); }
      if snapshot.Some? { return Err(FinalizedError); }
      if now >= cfg.start { return Err(DepositsClosed); }
      var unavailable := CustodyError(View());
      if unavailable.Some? { return Err(unavailable.value); }
      var account := accounts[id];
      if accountable + raw > U64_MAX || ptSupply + raw > U64_MAX || drSupply + raw > U64_MAX || custody + raw > U64_MAX
         || account.pt + raw > U64_MAX || account.dr + raw > U64_MAX { return Err(InvalidAmount); }
      accountable := accountable + raw;
      ptSupply := ptSupply + raw;
      drSupply := drSupply + raw;
      custody := custody + raw;
      account := account.(pt := account.pt + raw);
      account := account.(dr := account.dr + raw);
      accounts := accounts[id := account];
      return Ok(raw);
    }

    method RecordEvent(record: Record) returns (r: Result<Recorded, Error>)
      modifies this
      ensures (View(), r) == AnnualModel.RecordEvent(cfg, old(View()), record)
    {
      if snapshot.Some? { return Err(PostFinalizedAmendment); }
      var refusal := RecordError(cfg.term, record);
      if refusal.Some? { return Err(refusal.value); }
      if record.id in events {
        if record == events[record.id] { return Ok(Idempotent); }
        if record.revision <= events[record.id].revision { return Err(RevisionConflict); }
      } else {
        if |eventOrder| >= MAX_EVENT_IDS { return Err(EventLimit); }
        eventOrder := eventOrder + [record.id];
      }
      events := events[record.id := record];
      return Ok(Accepted);
    }

    method Transfer(from: string, to: string, side: Side, raw: int) returns (r: Result<int, Error>)
      modifies this
      ensures (View(), r) == AnnualModel.Transfer(old(View()), from, to, side, raw)
    {
      if !KnownAccount(View(), from) { return Err(InvalidAccount); }
      if !KnownAccount(View(), to) { return Err(InvalidAccount); }
      if !IsAmount(raw) { return Err(InvalidAmount); }
      if from == to { return Err(InvalidAccount); }
      if Balance(accounts[from], side) < raw { return Err(InsufficientBalance); }
      var nextTo := Balance(accounts[to], side) + raw;
      if nextTo > U64_MAX { return Err(InvalidAmount); }
      accounts := accounts[from := WithBalance(accounts[from], side, Balance(accounts[from], side) - raw)];
      accounts := accounts[to := WithBalance(accounts[to], side, nextTo)];
      return Ok(raw);
    }

    method Recombine(id: string, raw: int) returns (r: Result<int, Error>)
      modifies this
      ensures (View(), r) == AnnualModel.Recombine(old(View()), id, raw)
    {
      if snapshot.Some? { return Err(FinalizedError); }
      if !KnownAccount(View(), id) { return Err(InvalidAccount); }
      if !IsAmount(raw) { return Err(InvalidAmount); }
      var account := accounts[id];
      if account.pt < raw || account.dr < raw { return Err(InsufficientBalance); }
      var unavailable := CustodyError(View());
      if unavailable.Some? { return Err(unavailable.value); }
      if account.collateral + raw > U64_MAX { return Err(InvalidAmount); }
      account := account.(pt := account.pt - raw);
      account := account.(dr := account.dr - raw);
      account := account.(collateral := account.collateral + raw);
      accounts := accounts[id := account];
      ptSupply := ptSupply - raw;
      drSupply := drSupply - raw;
      accountable := accountable - raw;
      custody := custody - raw;
      return Ok(raw);
    }

    method Burn(id: string, side: Side, raw: int) returns (r: Result<int, Error>)
      modifies this
      ensures (View(), r) == AnnualModel.Burn(old(View()), id, side, raw)
    {
      if !KnownAccount(View(), id) { return Err(InvalidAccount); }
      if !IsAmount(raw) { return Err(InvalidAmount); }
      var account := accounts[id];
      if Balance(account, side) < raw { return Err(InsufficientBalance); }
      accounts := accounts[id := WithBalance(account, side, Balance(account, side) - raw)];
      if side.Pt? {
        ptSupply := ptSupply - raw;
        if burnedPt + raw > U64_MAX { return Err(InvalidAmount); }
        burnedPt := burnedPt + raw;
      } else {
        drSupply := drSupply - raw;
        if burnedDr + raw > U64_MAX { return Err(InvalidAmount); }
        burnedDr := burnedDr + raw;
      }
      return Ok(raw);
    }

    method Finalize(now: int, ledgerComplete: bool) returns (r: Result<Snapshot, Error>)
      requires JournalOk(cfg, View()) && accountable >= 0
      modifies this
      ensures (View(), r) == AnnualModel.Finalize(cfg, old(View()), now, ledgerComplete)
    {
      if !IsNow(now) { return Err(InvalidTime); }
      if snapshot.Some? { return Err(FinalizedError); }
      if now < cfg.maturity { return Err(NotMature); }
      if !ledgerComplete { return Err(IncompleteJournal); }
      var i := 0;
      while i < |eventOrder|
        invariant 0 <= i <= |eventOrder|
        invariant forall j | 0 <= j < i :: eventOrder[j] in events && Complete(events[eventOrder[j]])
        invariant View() == old(View())
      {
        if !Complete(events[eventOrder[i]]) { return Err(IncompleteJournal); }
        i := i + 1;
      }
      var unavailable := CustodyError(View());
      if unavailable.Some? { return Err(unavailable.value); }
      var index := CurrentIndex(cfg.term, eventOrder, events);
      var pools := Allocation(cfg, View());
      var snap := Snapshot(accountable, index, pools.0, pools.1, accountable);
      snapshot := Some(snap);
      remainingPt := snap.ptPool;
      remainingDr := snap.drPool;
      return Ok(snap);
    }

    method PreviewRedemption(id: string, side: Side, raw: int) returns (r: Result<nat, Error>)
      ensures r == AnnualModel.PreviewRedemption(View(), id, side, raw)
    {
      if !KnownAccount(View(), id) { return Err(InvalidAccount); }
      if !IsAmount(raw) { return Err(InvalidAmount); }
      if snapshot.None? { return Err(NotMature); }
      if Balance(accounts[id], side) < raw { return Err(InsufficientBalance); }
      var denominator := snapshot.value.denominator;
      if denominator == 0 { return Ok(0); }
      var pool := Pool(snapshot.value, side);
      var redeemed := if side.Pt? then redeemedPt else redeemedDr;
      Redemption.EntitledMonotone(redeemed, redeemed + raw, pool, denominator);
      return Ok(Redemption.Entitled(redeemed + raw, pool, denominator) - Redemption.Entitled(redeemed, pool, denominator));
    }

    method Redeem(id: string, side: Side, raw: int, allowZero: bool) returns (r: Result<int, Error>)
      modifies this
      ensures (View(), r) == AnnualModel.Redeem(old(View()), id, side, raw, allowZero)
    {
      var preview := PreviewRedemption(id, side, raw);
      if preview.Err? { return Err(preview.error); }
      var payout := preview.value;
      if payout == 0 && !allowZero { return Err(ZeroPayout); }
      var unavailable := CustodyError(View());
      if unavailable.Some? { return Err(unavailable.value); }
      if accounts[id].collateral + payout > U64_MAX { return Err(InvalidAmount); }
      if payout > (if side.Pt? then remainingPt else remainingDr) { return Err(CustodyDeficit); }
      r := Settle(id, side, raw, payout);
    }

    method Settle(id: string, side: Side, raw: nat, payout: nat) returns (r: Result<int, Error>)
      requires id in accounts && raw <= Balance(accounts[id], side) && payout <= Remaining(View(), side)
      modifies this
      ensures (View(), r) == AnnualModel.Settle(old(View()), id, side, raw, payout)
    {
      var account := accounts[id];
      var nextCollateral := account.collateral + payout;
      account := WithBalance(account, side, Balance(account, side) - raw);
      accounts := accounts[id := account];
      var retired := Retire(side, raw, payout);
      if !retired { return Err(InvalidAmount); }
      accounts := accounts[id := account.(collateral := nextCollateral)];
      custody := custody - payout;
      return Ok(payout);
    }

    /** One side's supply shrinks, then its redeemed count is checked, then count and pool move. */
    method Retire(side: Side, raw: nat, payout: nat) returns (ok: bool)
      requires payout <= Remaining(View(), side)
      modifies this
      ensures ok == (AnnualModel.Redeemed(old(View()), side) + raw <= U64_MAX)
      ensures var taken := WithSupply(old(View()), side, Supply(old(View()), side) - raw);
        View() == if !ok then taken
                  else WithRemaining(WithRedeemed(taken, side, AnnualModel.Redeemed(old(View()), side) + raw), side, Remaining(old(View()), side) - payout)
    {
      if side.Pt? {
        ptSupply := ptSupply - raw;
        if redeemedPt + raw > U64_MAX { return false; }
        redeemedPt := redeemedPt + raw;
        remainingPt := remainingPt - payout;
      } else {
        drSupply := drSupply - raw;
        if redeemedDr + raw > U64_MAX { return false; }
        redeemedDr := redeemedDr + raw;
        remainingDr := remainingDr - payout;
      }
      return true;
    }

    method Donate(raw: int) returns (r: Result<int, Error>)
      modifies this
      ensures (View(), r) == AnnualModel.Donate(old(View()), raw)
    {
      if !IsAmount(raw) || custody + raw > U64_MAX || donations + raw > U64_MAX { return Err(InvalidAmount); }
      custody := custody + raw;
      donations := donations + raw;
      return Ok(raw);
    }

    method SetCustodyBlocked(value: bool)
      modifies this
      ensures View() == old(View()).(blocked := value)
    {
      blocked := value;
    }

    method ReportActualCustody(raw: int) returns (r: Result<int, Error>)
      modifies this
      ensures (View(), r) == AnnualModel.ReportActualCustody(old(View()), raw)
    {
      if !(0 <= raw <= U64_MAX) { return Err(InvalidAmount); }
      custody := raw;
      return Ok(raw);
    }
  }
}
