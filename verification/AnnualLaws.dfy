/**
 When each call of the annual model goes through, and what it moves, in every reachable state. The range checks on
 supplies, balances and counters never decide; what is left are conditions a caller can see.
 */
module AnnualLaws {
  import opened Prelude
  import opened RetentionIndex
  import opened AnnualModel
  import Redemption

  predicate Known(s: State, id: string) { 1 <= |id| <= 128 && id in s.accounts }

  /** Custody operations are not blocked and the vault covers what is owed. */
  predicate CustodyOpen(s: State)
  {
    !s.blocked && s.custody >= if s.snapshot.None? then s.accountable else s.remainingPt + s.remainingDr
  }

  /** Only this account differs. */
  predicate OnlyAccount(s: State, t: State, id: string)
  {
    t.accounts.Keys == s.accounts.Keys && forall x | x in s.accounts && x != id :: t.accounts[x] == s.accounts[x]
  }

  lemma BalanceWithin(cfg: Config, s: State, id: string, side: Side)
    requires StateOk(cfg, s) && id in s.accounts
    ensures Balance(s.accounts[id], side) <= Supply(s, side) <= s.accountable
    ensures Balance(s.accounts[id], side) + Burned(s, side) + Redeemed(s, side) <= s.accountable
  {
    TotalUpdate(cfg.ids, s.accounts, id, s.accounts[id], ColumnOf(side));
  }

  /** Deposits are taken before the year starts, and only then. */
  lemma DepositOkIff(cfg: Config, s: State, id: string, raw: int, now: int)
    requires StateOk(cfg, s)
    ensures Deposit(cfg, s, id, raw, now).1.Ok? <==>
      && Known(s, id) && 1 <= raw <= U64_MAX && 0 <= now <= MAX_SAFE_INTEGER && now < cfg.start
      && s.snapshot.None? && CustodyOpen(s) && s.accountable + raw <= U64_MAX && s.custody + raw <= U64_MAX
    ensures Deposit(cfg, s, id, raw, now).1.Ok? ==>
      var t := Deposit(cfg, s, id, raw, now).0;
      && t.accountable == s.accountable + raw && t.custody == s.custody + raw && t.ptSupply == s.ptSupply + raw && t.drSupply == s.drSupply + raw
      && OnlyAccount(s, t, id) && id in s.accounts && id in t.accounts && t.accounts[id].collateral == s.accounts[id].collateral
      && t.accounts[id].pt == s.accounts[id].pt + raw && t.accounts[id].dr == s.accounts[id].dr + raw
  {
    if id in s.accounts {
      BalanceWithin(cfg, s, id, Redemption.Pt);
      BalanceWithin(cfg, s, id, Redemption.Dr);
    }
  }

  /** A transfer needs two different known accounts and the claims; they leave one and arrive at the other. */
  lemma TransferOkIff(cfg: Config, s: State, from: string, to: string, side: Side, raw: int)
    requires StateOk(cfg, s)
    ensures Transfer(s, from, to, side, raw).1.Ok? <==>
      Known(s, from) && Known(s, to) && from != to && 1 <= raw <= U64_MAX && raw <= Balance(s.accounts[from], side)
    ensures Transfer(s, from, to, side, raw).1.Ok? ==>
      var t := Transfer(s, from, to, side, raw).0;
      && t == s.(accounts := t.accounts) && t.accounts.Keys == s.accounts.Keys
      && (forall x | x in s.accounts && x != from && x != to :: t.accounts[x] == s.accounts[x])
      && from in s.accounts && to in s.accounts
      && Balance(t.accounts[from], side) == Balance(s.accounts[from], side) - raw
      && Balance(t.accounts[to], side) == Balance(s.accounts[to], side) + raw
      && (forall x, column | (x == from || x == to) && column != ColumnOf(side) :: Cell(t.accounts[x], column) == Cell(s.accounts[x], column))
  {
    if from in s.accounts && to in s.accounts && from != to {
      BalanceWithin(cfg, s, to, side);
      PairWithin(cfg, s, from, to, side);
    }
  }

  lemma PairWithin(cfg: Config, s: State, from: string, to: string, side: Side)
    requires StateOk(cfg, s) && from in s.accounts && to in s.accounts && from != to
    ensures Balance(s.accounts[from], side) + Balance(s.accounts[to], side) <= Supply(s, side)
  {
    var without := s.accounts[from := WithBalance(s.accounts[from], side, 0)];
    TotalUpdate(cfg.ids, s.accounts, from, WithBalance(s.accounts[from], side, 0), ColumnOf(side));
    TotalUpdate(cfg.ids, without, to, without[to], ColumnOf(side));
  }

  /** Before finalization equal claims of both sides give their collateral back. */
  lemma RecombineOkIff(cfg: Config, s: State, id: string, raw: int)
    requires StateOk(cfg, s)
    ensures Recombine(s, id, raw).1.Ok? <==>
      && Known(s, id) && 1 <= raw <= U64_MAX && s.snapshot.None? && CustodyOpen(s)
      && raw <= s.accounts[id].pt && raw <= s.accounts[id].dr && s.accounts[id].collateral + raw <= U64_MAX
    ensures Recombine(s, id, raw).1.Ok? ==>
      var t := Recombine(s, id, raw).0;
      && t.accountable == s.accountable - raw && t.custody == s.custody - raw
      && OnlyAccount(s, t, id) && id in s.accounts && id in t.accounts && t.accounts[id].collateral == s.accounts[id].collateral + raw
      && t.accounts[id].pt == s.accounts[id].pt - raw && t.accounts[id].dr == s.accounts[id].dr - raw
  {
  }

  /** Burning needs nothing but the claims, at any time; only they and the burned counter of their side change. */
  lemma BurnOkIff(cfg: Config, s: State, id: string, side: Side, raw: int)
    requires StateOk(cfg, s)
    ensures Burn(s, id, side, raw).1.Ok? <==> Known(s, id) && 1 <= raw <= U64_MAX && raw <= Balance(s.accounts[id], side)
    ensures Burn(s, id, side, raw).1.Ok? ==>
      var t := Burn(s, id, side, raw).0;
      && Burned(t, side) == Burned(s, side) + raw && OnlyAccount(s, t, id) && id in s.accounts && id in t.accounts
      && Balance(t.accounts[id], side) == Balance(s.accounts[id], side) - raw
      && t.accountable == s.accountable && t.custody == s.custody && t.redeemedPt == s.redeemedPt && t.redeemedDr == s.redeemedDr
  {
    if id in s.accounts { BalanceWithin(cfg, s, id, side); }
  }

  /** The recorded event is final, dated and settled. */
  predicate Final(r: Record)
  {
    r.finalized && r.exDate.Some? && (r.status.Qualified? || r.status.ConfirmedZero? || r.status.Cancelled?)
  }

  /** Finalization needs maturity, a complete ledger of final events and open custody, once. */
  lemma FinalizeOkIff(cfg: Config, s: State, now: int, ledgerComplete: bool)
    requires StateOk(cfg, s)
    ensures Finalize(cfg, s, now, ledgerComplete).1.Ok? <==>
      && 0 <= now <= MAX_SAFE_INTEGER && cfg.maturity <= now && s.snapshot.None? && ledgerComplete && CustodyOpen(s)
      && forall id | id in s.events :: Final(s.events[id])
  {
    assert AllComplete(s) <==> forall id | id in s.events :: Final(s.events[id]) by { CompleteIff(cfg, s); }
  }

  lemma CompleteIff(cfg: Config, s: State)
    requires JournalOk(cfg, s)
    ensures AllComplete(s) <==> forall id | id in s.events :: Final(s.events[id])
  {
    if AllComplete(s) {
      forall id | id in s.events ensures Final(s.events[id]) {
        var i :| 0 <= i < |s.eventOrder| && s.eventOrder[i] == id;
        assert Complete(s.events[s.eventOrder[i]]);
      }
    }
    if forall id | id in s.events :: Final(s.events[id]) {
      forall i | 0 <= i < |s.eventOrder| ensures s.eventOrder[i] in s.events && Complete(s.events[s.eventOrder[i]]) {
        assert s.eventOrder[i] in s.events;
      }
    }
  }

  /** What a redemption is owed by its frozen pool. */
  function Due(s: State, side: Side, raw: nat): int
    requires s.snapshot.Some? && s.snapshot.value.denominator > 0
  {
    var snap := s.snapshot.value;
    Redemption.Entitled(Redeemed(s, side) + raw, Pool(snap, side), snap.denominator) - Redemption.Entitled(Redeemed(s, side), Pool(snap, side), snap.denominator)
  }

  /** A redemption needs finalization, the claims, open custody and a payout, unless a zero payout is allowed. */
  lemma RedeemOkIff(cfg: Config, s: State, id: string, side: Side, raw: int, allowZero: bool)
    requires StateOk(cfg, s)
    ensures Redeem(s, id, side, raw, allowZero).1.Ok? <==>
      && Known(s, id) && 1 <= raw <= U64_MAX && raw <= Balance(s.accounts[id], side) && s.snapshot.Some? && CustodyOpen(s)
      && s.snapshot.value.denominator > 0 && (Due(s, side, raw) > 0 || allowZero)
      && s.accounts[id].collateral + Due(s, side, raw) <= U64_MAX
  {
    if id in s.accounts && 1 <= raw <= Balance(s.accounts[id], side) && s.snapshot.Some? {
      PayoutCovered(cfg, s, id, side, raw);
      BalanceWithin(cfg, s, id, side);
    }
  }

  /** It is paid what is due, to the account that gives up the claims. */
  lemma RedeemMoves(cfg: Config, s: State, id: string, side: Side, raw: int, allowZero: bool)
    requires StateOk(cfg, s) && Redeem(s, id, side, raw, allowZero).1.Ok?
    ensures s.snapshot.Some? && s.snapshot.value.denominator > 0 && raw > 0 && id in s.accounts
    ensures var t := Redeem(s, id, side, raw, allowZero).0;
      && Redeem(s, id, side, raw, allowZero).1.value == Due(s, side, raw) && t.custody == s.custody - Due(s, side, raw)
      && Redeemed(t, side) == Redeemed(s, side) + raw && OnlyAccount(s, t, id) && id in t.accounts
      && Balance(t.accounts[id], side) == Balance(s.accounts[id], side) - raw
      && t.accounts[id].collateral == s.accounts[id].collateral + Due(s, side, raw)
  {
    RedeemOkIff(cfg, s, id, side, raw, allowZero);
    PayoutCovered(cfg, s, id, side, raw);
  }

  lemma DonateOkIff(s: State, raw: int)
    ensures Donate(s, raw).1.Ok? <==> 1 <= raw <= U64_MAX && s.custody + raw <= U64_MAX && s.donations + raw <= U64_MAX
    ensures Donate(s, raw).1.Ok? ==> Donate(s, raw).0.custody - s.custody == raw == Donate(s, raw).0.donations - s.donations
  {
  }

  lemma ReportOkIff(s: State, raw: int)
    ensures ReportActualCustody(s, raw).1.Ok? <==> 0 <= raw <= U64_MAX
    ensures ReportActualCustody(s, raw).0 == if 0 <= raw <= U64_MAX then s.(custody := raw) else s
  {
  }

  // ----- errors tell the truth -----

  predicate OutOfRange(raw: int) { raw < 1 || U64_MAX < raw }
  predicate BadTime(now: int) { now < 0 || MAX_SAFE_INTEGER < now }
  predicate Owing(s: State) { s.custody < if s.snapshot.None? then s.accountable else s.remainingPt + s.remainingDr }

  lemma DepositErrors(cfg: Config, s: State, id: string, raw: int, now: int)
    requires StateOk(cfg, s) && Deposit(cfg, s, id, raw, now).1.Err?
    ensures match Deposit(cfg, s, id, raw, now).1.error
      case InvalidAccount => !Known(s, id)
      case InvalidAmount => OutOfRange(raw) || s.accountable + raw > U64_MAX || s.custody + raw > U64_MAX
      case InvalidTime => BadTime(now)
      case FinalizedError => s.snapshot.Some?
      case DepositsClosed => cfg.start <= now
      case CustodyBlocked => s.blocked
      case CustodyDeficit => Owing(s)
      case _ => false
  {
    DepositOkIff(cfg, s, id, raw, now);
    if id in s.accounts {
      BalanceWithin(cfg, s, id, Redemption.Pt);
      BalanceWithin(cfg, s, id, Redemption.Dr);
    }
  }

  lemma ClaimErrors(cfg: Config, s: State, id: string, to: string, side: Side, raw: int)
    requires StateOk(cfg, s)
    ensures Transfer(s, id, to, side, raw).1.Err? ==>
      match Transfer(s, id, to, side, raw).1.error
      case InvalidAccount => !Known(s, id) || !Known(s, to) || id == to
      case InvalidAmount => OutOfRange(raw)
      case InsufficientBalance => id in s.accounts && Balance(s.accounts[id], side) < raw
      case _ => false
    ensures Burn(s, id, side, raw).1.Err? ==>
      match Burn(s, id, side, raw).1.error
      case InvalidAccount => !Known(s, id)
      case InvalidAmount => OutOfRange(raw)
      case InsufficientBalance => id in s.accounts && Balance(s.accounts[id], side) < raw
      case _ => false
  {
    TransferOkIff(cfg, s, id, to, side, raw);
    BurnOkIff(cfg, s, id, side, raw);
  }

  lemma RecombineErrors(cfg: Config, s: State, id: string, raw: int)
    requires Recombine(s, id, raw).1.Err?
    ensures match Recombine(s, id, raw).1.error
      case FinalizedError => s.snapshot.Some?
      case InvalidAccount => !Known(s, id)
      case InvalidAmount => OutOfRange(raw) || (id in s.accounts && s.accounts[id].collateral + raw > U64_MAX)
      case InsufficientBalance => id in s.accounts && (s.accounts[id].pt < raw || s.accounts[id].dr < raw)
      case CustodyBlocked => s.blocked
      case CustodyDeficit => Owing(s)
      case _ => false
  {
  }

  lemma FinalizeErrors(cfg: Config, s: State, now: int, ledgerComplete: bool)
    requires StateOk(cfg, s) && Finalize(cfg, s, now, ledgerComplete).1.Err?
    ensures match Finalize(cfg, s, now, ledgerComplete).1.error
      case InvalidTime => BadTime(now)
      case FinalizedError => s.snapshot.Some?
      case NotMature => now < cfg.maturity
      case IncompleteJournal => !ledgerComplete || exists id :: id in s.events && !Final(s.events[id])
      case CustodyBlocked => s.blocked
      case CustodyDeficit => Owing(s)
      case _ => false
  {
    CompleteIff(cfg, s);
  }

  lemma RedeemErrors(cfg: Config, s: State, id: string, side: Side, raw: int, allowZero: bool)
    requires StateOk(cfg, s) && Redeem(s, id, side, raw, allowZero).1.Err?
    ensures match Redeem(s, id, side, raw, allowZero).1.error
      case InvalidAccount => !Known(s, id)
      case InvalidAmount => OutOfRange(raw) || (id in s.accounts && s.snapshot.Some? && s.snapshot.value.denominator > 0
                                                && s.accounts[id].collateral + Due(s, side, raw) > U64_MAX)
      case NotMature => s.snapshot.None?
      case InsufficientBalance => id in s.accounts && Balance(s.accounts[id], side) < raw
      case ZeroPayout => !allowZero
      case CustodyBlocked => s.blocked
      case CustodyDeficit => Owing(s)
      case _ => false
  {
    RedeemOkIff(cfg, s, id, side, raw, allowZero);
    if id in s.accounts && 1 <= raw <= Balance(s.accounts[id], side) && s.snapshot.Some? { PayoutCovered(cfg, s, id, side, raw); }
  }

  lemma RecordErrors(cfg: Config, s: State, r: Record)
    requires RecordEvent(cfg, s, r).1.Err?
    ensures match RecordEvent(cfg, s, r).1.error
      case PostFinalizedAmendment => s.snapshot.Some?
      case InvalidIdentity => !(CheckedText(r.id) && CheckedText(r.chain) && CheckedText(r.issuer) && CheckedText(r.mint))
      case InvalidEvent => !ValidRecord(cfg.term, r)
      case RevisionConflict => r.id in s.events && r.revision <= s.events[r.id].revision && r != s.events[r.id]
      case EventLimit => r.id !in s.events && |s.eventOrder| >= 64
      case _ => false
  {
  }
}
