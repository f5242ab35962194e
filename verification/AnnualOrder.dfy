/**
 The annual model's index and allocation depend on what was recorded, not on when: over whole runs of the model,
 only the latest accepted revision of each event matters, and another event never lowers the dividend pool.
 */
module AnnualOrder {
  import opened Prelude
  import opened RetentionIndex
  import opened AnnualModel
  import opened EventArrival
  import Counting

  // ----- one state -----

  lemma {:induction false} ListLength<T>(order: seq<string>, entries: map<string, T>)
    requires Lists(order, entries) && Covers(order, entries)
    ensures |order| == |entries|
    decreases |order|
  {
    if order == [] {
      assert entries.Keys == {};
    } else {
      var k := |order| - 1;
      var init, rest := order[..k], entries - {order[k]};
      assert rest.Keys == entries.Keys - {order[k]};
      forall id | id in rest ensures id in init {
        var i :| 0 <= i < |order| && order[i] == id;
        assert init[i] == id;
      }
      ListLength(init, rest);
    }
  }

  /** Two states with the same events have the same index. */
  lemma SameEventsSameIndex(cfg: Config, s: State, t: State)
    requires JournalOk(cfg, s) && JournalOk(cfg, t) && s.events == t.events
    ensures IndexNow(cfg, s) == IndexNow(cfg, t)
  {
    ListLength(s.eventOrder, s.events);
    ListLength(t.eventOrder, t.events);
    ValidWeights(cfg.term, s.events);
    var weights := WeightsOf(cfg.term, s.events);
    assert Lists(s.eventOrder, weights) && Lists(t.eventOrder, weights);
    assert forall i | 0 <= i < |s.eventOrder| :: s.eventOrder[i] in t.eventOrder;
    IndexIgnoresOrder(s.eventOrder, t.eventOrder, weights);
  }

  lemma WeightsWith(term: Term, events: Journal, record: Record)
    ensures WeightsOf(term, events[record.id := record]) == WeightsOf(term, events)[record.id := WeightOf(term, record)]
  {
  }

  lemma JournaledWeights(cfg: Config, s: State, record: Record)
    requires JournalOk(cfg, s) && ValidRecord(cfg.term, record)
    ensures var weights, w := WeightsOf(cfg.term, s.events), WeightOf(cfg.term, record);
      WeightsOk(weights) && WeightOk(w) && WeightsOf(cfg.term, Journaled(s, record).events) == weights[record.id := w]
  {
    ValidWeights(cfg.term, s.events);
    ValidWeight(cfg.term, record);
    WeightsWith(cfg.term, s.events, record);
  }

  lemma JournaledDividend(cfg: Config, s: State, record: Record)
    requires JournalOk(cfg, s) && s.accountable >= 0 && record.id !in s.events && ValidRecord(cfg.term, record)
    ensures var t := Journaled(s, record); JournalOk(cfg, t) && Allocation(cfg, s).1 <= Allocation(cfg, t).1
  {
    JournalGrows(cfg, s, record);
    JournaledWeights(cfg, s, record);
    var weights := WeightsOf(cfg.term, s.events);
    assert Lists(s.eventOrder, weights);
    MoreEventsMoreDividend(s.eventOrder, weights, record.id, WeightOf(cfg.term, record), s.accountable);
  }

  /** Accepting a record of a new event never lowers the dividend pool. */
  lemma NewEventNeverLowersDividend(cfg: Config, s: State, record: Record)
    requires StateOk(cfg, s) && record.id !in s.events && RecordEvent(cfg, s, record).1 == Ok(Accepted)
    ensures var t := RecordEvent(cfg, s, record).0;
      JournalOk(cfg, t) && t.accountable == s.accountable && Allocation(cfg, s).1 <= Allocation(cfg, t).1
  {
    RecordCases(cfg, s, record);
    JournaledDividend(cfg, s, record);
  }

  // ----- whole runs -----

  /** The records a run offers to the journal. */
  ghost function Offered(ops: seq<Op>): set<Record>
  {
    set op | op in ops && op.RecordOp? :: op.record
  }

  ghost function Valid(cfg: Config): Validity
  {
    r => ValidRecord(cfg.term, r)
  }

  lemma RecordOutcome(cfg: Config, s: State, record: Record, valid: bool)
    requires s.snapshot.None? && valid == ValidRecord(cfg.term, record)
    ensures var t := RecordEvent(cfg, s, record).0;
      && t.snapshot.None?
      && t.events == if !valid then s.events
                     else if record.id in s.events then if s.events[record.id].revision < record.revision then s.events[record.id := record] else s.events
                     else if |s.eventOrder| >= MAX_EVENT_IDS then s.events
                     else s.events[record.id := record]
  {
    assert RecordError(cfg.term, record).None? <==> valid;
  }

  /** recordEvent on an unfinalized model is one arrival. */
  lemma RecordIsArrival(cfg: Config, s: State, record: Record)
    requires JournalOk(cfg, s) && s.snapshot.None?
    ensures RecordEvent(cfg, s, record).0.events == Arrive(Valid(cfg), s.events, record)
    ensures RecordEvent(cfg, s, record).0.snapshot.None?
  {
    ListLength(s.eventOrder, s.events);
    RecordOutcome(cfg, s, record, Valid(cfg)(record));
  }

  lemma OtherOpsKeepEvents(cfg: Config, s: State, op: Op)
    requires JournalOk(cfg, s) && s.accountable >= 0 && !op.RecordOp?
    ensures Apply(cfg, s, op).0.events == s.events
  {
  }

  lemma {:induction false} LatestRun(cfg: Config, s: State, offered: set<Record>, ops: seq<Op>)
    requires StateOk(cfg, s) && Latest(Valid(cfg), offered, s.events) && Run(cfg, s, ops).snapshot.None?
    requires |Names(Valid(cfg), offered + Offered(ops))| <= LIMIT
    ensures Latest(Valid(cfg), offered + Offered(ops), Run(cfg, s, ops).events)
    decreases |ops|
  {
    if s.snapshot.Some? { SnapshotFrozen(cfg, s, ops); }
    if ops == [] {
      assert offered + Offered(ops) == offered;
    } else {
      var op, rest := ops[0], ops[1..];
      var now := offered + if op.RecordOp? then {op.record} else {};
      assert now + Offered(rest) == offered + Offered(ops);
      ApplyKeeps(cfg, s, op);
      if op.RecordOp? {
        assert Names(Valid(cfg), now) <= Names(Valid(cfg), now + Offered(rest));
        Counting.SubsetSize(Names(Valid(cfg), now), Names(Valid(cfg), now + Offered(rest)));
        RecordIsArrival(cfg, s, op.record);
        LatestNext(Valid(cfg), offered, s.events, op.record);
      } else {
        OtherOpsKeepEvents(cfg, s, op);
      }
      LatestRun(cfg, Apply(cfg, s, op).0, now, rest);
    }
  }

  /** From the empty model, an unfinalized run offered at most 64 events ends with the top record of each. */
  lemma RunHoldsLatest(cfg: Config, ops: seq<Op>)
    requires StateOk(cfg, Initial(cfg)) && Run(cfg, Initial(cfg), ops).snapshot.None?
    requires |Names(Valid(cfg), Offered(ops))| <= LIMIT
    ensures Latest(Valid(cfg), Offered(ops), Run(cfg, Initial(cfg), ops).events)
  {
    assert {} + Offered(ops) == Offered(ops);
    LatestRun(cfg, Initial(cfg), {}, ops);
  }

  lemma RunJournalOk(cfg: Config, ops: seq<Op>)
    requires StateOk(cfg, Initial(cfg))
    ensures JournalOk(cfg, Run(cfg, Initial(cfg), ops)) && Run(cfg, Initial(cfg), ops).accountable >= 0
  {
    RunOk(cfg, Initial(cfg), ops);
  }

  /** An unfinalized run from the empty model that offers exactly these records. */
  ghost predicate Offers(cfg: Config, ops: seq<Op>, records: set<Record>)
    requires StateOk(cfg, Initial(cfg))
  {
    Offered(ops) == records && Run(cfg, Initial(cfg), ops).snapshot.None?
  }

  /** At most 64 events, and the highest revision of each offered with one content. */
  ghost predicate Determined(cfg: Config, records: set<Record>)
  {
    |Names(Valid(cfg), records)| <= LIMIT && OneTopEach(Valid(cfg), records)
  }

  lemma DeterminedRunsAgree(cfg: Config, records: set<Record>, ops: seq<Op>, others: seq<Op>)
    requires StateOk(cfg, Initial(cfg)) && Offers(cfg, ops, records) && Offers(cfg, others, records) && Determined(cfg, records)
    ensures Run(cfg, Initial(cfg), ops).events == Run(cfg, Initial(cfg), others).events
  {
    RunHoldsLatest(cfg, ops);
    RunHoldsLatest(cfg, others);
    LatestIsUnique(Valid(cfg), records, Run(cfg, Initial(cfg), ops).events, Run(cfg, Initial(cfg), others).events);
  }

  /**
   Two unfinalized runs offered the same records, in whatever order and among whatever other calls, have the same index
   and, for the same accountable amount, the same pools.
   */
  lemma ArrivalOrderIrrelevant(cfg: Config, records: set<Record>, ops: seq<Op>, others: seq<Op>)
    requires StateOk(cfg, Initial(cfg)) && Offers(cfg, ops, records) && Offers(cfg, others, records) && Determined(cfg, records)
    ensures var s, t := Run(cfg, Initial(cfg), ops), Run(cfg, Initial(cfg), others);
      && JournalOk(cfg, s) && JournalOk(cfg, t) && s.accountable >= 0 && t.accountable >= 0
      && IndexNow(cfg, s) == IndexNow(cfg, t)
      && (s.accountable == t.accountable ==> Allocation(cfg, s) == Allocation(cfg, t))
  {
    var s, t := Run(cfg, Initial(cfg), ops), Run(cfg, Initial(cfg), others);
    RunJournalOk(cfg, ops);
    RunJournalOk(cfg, others);
    DeterminedRunsAgree(cfg, records, ops, others);
    SameEventsSameIndex(cfg, s, t);
    if s.accountable == t.accountable { SameEventsSamePools(cfg, s, t); }
  }

  lemma SameEventsSamePools(cfg: Config, s: State, t: State)
    requires JournalOk(cfg, s) && JournalOk(cfg, t) && s.events == t.events && 0 <= s.accountable == t.accountable
    ensures Allocation(cfg, s) == Allocation(cfg, t)
  {
    SameEventsSameIndex(cfg, s, t);
  }

  // ----- and no weaker condition will do -----

  function Recording(records: seq<Record>): seq<Op>
  {
    seq(|records|, i requires 0 <= i < |records| => RecordOp(records[i]))
  }

  lemma RecordingOffers(records: seq<Record>)
    ensures Offered(Recording(records)) == Elements(records)
  {
    var ops := Recording(records);
    forall r | r in records ensures r in Offered(ops) {
      var i :| 0 <= i < |records| && records[i] == r;
      assert ops[i] == RecordOp(r) && ops[i] in ops;
    }
  }

  lemma {:induction false} RecordingFolds(cfg: Config, s: State, records: seq<Record>)
    requires StateOk(cfg, s) && s.snapshot.None?
    ensures Run(cfg, s, Recording(records)).events == Fold(Valid(cfg), s.events, records)
    ensures Run(cfg, s, Recording(records)).snapshot.None?
    decreases |records|
  {
    if records != [] {
      var ops := Recording(records);
      assert ops[0] == RecordOp(records[0]) && ops[1..] == Recording(records[1..]);
      ApplyKeeps(cfg, s, ops[0]);
      RecordIsArrival(cfg, s, records[0]);
      RecordingFolds(cfg, Apply(cfg, s, ops[0]).0, records[1..]);
    }
  }

  /** A list of arrivals is a run of the model. */
  lemma RecordingRun(cfg: Config, list: seq<Record>, records: set<Record>)
    requires StateOk(cfg, Initial(cfg)) && Elements(list) == records
    ensures Offers(cfg, Recording(list), records)
    ensures Run(cfg, Initial(cfg), Recording(list)).events == Fold(Valid(cfg), map[], list)
  {
    RecordingOffers(list);
    RecordingFolds(cfg, Initial(cfg), list);
  }

  lemma UndeterminedRunsDiffer(cfg: Config, records: set<Record>) returns (ops: seq<Op>, others: seq<Op>)
    requires StateOk(cfg, Initial(cfg)) && !Determined(cfg, records)
    ensures Offers(cfg, ops, records) && Offers(cfg, others, records)
    ensures Run(cfg, Initial(cfg), ops).events != Run(cfg, Initial(cfg), others).events
  {
    var a: seq<Record>, b: seq<Record>;
    if |Names(Valid(cfg), records)| <= LIMIT {
      var r, q :| Top(Valid(cfg), records, r) && Top(Valid(cfg), records, q) && r.id == q.id && r != q;
      a := FirstTopWins(Valid(cfg), records, r);
      b := FirstTopWins(Valid(cfg), records, q);
    } else {
      a, b := FullJournalRuns(cfg, records);
    }
    RecordingRun(cfg, a, records);
    RecordingRun(cfg, b, records);
    ops, others := Recording(a), Recording(b);
  }

  lemma FullJournalRuns(cfg: Config, records: set<Record>) returns (a: seq<Record>, b: seq<Record>)
    requires |Names(Valid(cfg), records)| > LIMIT
    ensures Elements(a) == records == Elements(b) && Fold(Valid(cfg), map[], a) != Fold(Valid(cfg), map[], b)
  {
    a := Enumerate(records);
    var reached := Fold(Valid(cfg), map[], a);
    Fills(Valid(cfg), map[], a);
    if |reached| < LIMIT { Counting.SubsetSize(Names(Valid(cfg), records), reached.Keys); }
    assert reached.Keys != {};
    var id :| id in reached.Keys;
    b := LateEventRefused(Valid(cfg), records, id);
  }

  /** The recorded events depend on the order of arrival exactly when a top revision has two contents or there are more than 64 events. */
  lemma ArrivalOrderIrrelevantIff(cfg: Config, records: set<Record>)
    requires StateOk(cfg, Initial(cfg))
    ensures (forall ops, others | Offers(cfg, ops, records) && Offers(cfg, others, records) ::
               Run(cfg, Initial(cfg), ops).events == Run(cfg, Initial(cfg), others).events)
      <==> Determined(cfg, records)
  {
    if Determined(cfg, records) {
      forall ops, others | Offers(cfg, ops, records) && Offers(cfg, others, records)
        ensures Run(cfg, Initial(cfg), ops).events == Run(cfg, Initial(cfg), others).events
      {
        DeterminedRunsAgree(cfg, records, ops, others);
      }
    } else {
      var ops, others := UndeterminedRunsDiffer(cfg, records);
    }
  }
}
