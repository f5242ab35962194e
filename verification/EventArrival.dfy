/**
 The event journal of the annual model as a fold over arriving records (recordEvent, packages/sdk/src/annual-reference.ts),
 for any notion of a valid record: when the outcome depends on the order of arrival, and when it does not.
 */
module EventArrival {
  import opened RetentionIndex
  import opened Counting

  const LIMIT: nat := 64

  type Validity = Record -> bool

  /** One arrival: a valid record of a new event enters while there is room, a higher revision replaces a lower one. */
  function Arrive(valid: Validity, events: Journal, r: Record): Journal
  {
    if !valid(r) then events
    else if r.id in events then if events[r.id].revision < r.revision then events[r.id := r] else events
    else if |events| >= LIMIT then events
    else events[r.id := r]
  }

  function Fold(valid: Validity, events: Journal, records: seq<Record>): Journal
    decreases |records|
  {
    if records == [] then events else Fold(valid, Arrive(valid, events, records[0]), records[1..])
  }

  ghost function Elements(records: seq<Record>): set<Record>
  {
    set r | r in records
  }

  /** The events named by valid records. */
  ghost function Names(valid: Validity, records: set<Record>): set<string>
  {
    set r | r in records && valid(r) :: r.id
  }

  /** The record is valid and no valid record of its event has a higher revision. */
  ghost predicate Top(valid: Validity, records: set<Record>, r: Record)
  {
    r in records && valid(r) && forall q | q in records && valid(q) && q.id == r.id :: q.revision <= r.revision
  }

  /** The highest revision of each event is offered with one content only. */
  ghost predicate OneTopEach(valid: Validity, records: set<Record>)
  {
    forall r, q | Top(valid, records, r) && Top(valid, records, q) && r.id == q.id :: r == q
  }

  // ----- order does not matter -----

  /** The journal holds exactly the top record of each event arrived so far. */
  ghost predicate Latest(valid: Validity, records: set<Record>, events: Journal)
  {
    && (forall id | id in events :: events[id].id == id && Top(valid, records, events[id]))
    && (forall r | r in records && valid(r) :: r.id in events)
  }

  lemma LatestIsUnique(valid: Validity, records: set<Record>, a: Journal, b: Journal)
    requires Latest(valid, records, a) && Latest(valid, records, b) && OneTopEach(valid, records)
    ensures a == b
  {
    forall id | id in a ensures id in b && b[id] == a[id] {
      assert Top(valid, records, a[id]);
      assert Top(valid, records, b[id]);
    }
    forall id | id in b ensures id in a { assert Top(valid, records, b[id]); }
  }

  lemma Room(valid: Validity, records: set<Record>, events: Journal, r: Record)
    requires Latest(valid, records, events) && valid(r) && r.id !in events && |Names(valid, records + {r})| <= LIMIT
    ensures |events| < LIMIT
  {
    var names := Names(valid, records + {r});
    forall id | id in events ensures id in names {
      assert Top(valid, records, events[id]);
      assert events[id] in records + {r};
    }
    assert r in records + {r};
    SubsetSize(events.Keys + {r.id}, names);
  }

  lemma LatestNext(valid: Validity, records: set<Record>, events: Journal, r: Record)
    requires Latest(valid, records, events) && |Names(valid, records + {r})| <= LIMIT
    ensures Latest(valid, records + {r}, Arrive(valid, events, r))
  {
    var all, next := records + {r}, Arrive(valid, events, r);
    if valid(r) && r.id !in events { Room(valid, records, events, r); }
    forall id | id in next ensures next[id].id == id && Top(valid, all, next[id]) {
      if id in events { assert Top(valid, records, events[id]); }
      forall q | q in all && valid(q) && q.id == id ensures q.revision <= next[id].revision {
        if q != r { assert q in records && q.id in events; }
      }
    }
  }

  // ----- order matters -----

  lemma {:induction false} FoldAppend(valid: Validity, events: Journal, a: seq<Record>, b: seq<Record>)
    ensures Fold(valid, events, a + b) == Fold(valid, Fold(valid, events, a), b)
    decreases |a|
  {
    if a == [] {
      assert a + b == b;
    } else {
      assert (a + b)[1..] == a[1..] + b;
      FoldAppend(valid, Arrive(valid, events, a[0]), a[1..], b);
    }
  }

  /** Nothing replaces a record that no later one outranks. */
  lemma {:induction false} TopStays(valid: Validity, events: Journal, records: seq<Record>, id: string)
    requires id in events && forall r | r in records && valid(r) && r.id == id :: r.revision <= events[id].revision
    ensures id in Fold(valid, events, records) && Fold(valid, events, records)[id] == events[id]
    decreases |records|
  {
    if records != [] {
      assert records[0] in records;
      var next := Arrive(valid, events, records[0]);
      assert id in next && next[id] == events[id];
      TopStays(valid, next, records[1..], id);
    }
  }

  /** Events never leave. */
  lemma {:induction false} KeysGrow(valid: Validity, events: Journal, records: seq<Record>)
    ensures events.Keys <= Fold(valid, events, records).Keys <= events.Keys + Names(valid, Elements(records))
    ensures |events| <= |Fold(valid, events, records)|
    decreases |records|
  {
    if records != [] {
      var next := Arrive(valid, events, records[0]);
      assert records[0] in Elements(records) && Elements(records[1..]) <= Elements(records);
      KeysGrow(valid, next, records[1..]);
      SubsetSize(events.Keys, Fold(valid, events, records).Keys);
    }
  }

  /** A full journal admits no new event. */
  lemma {:induction false} FullStaysClosed(valid: Validity, events: Journal, records: seq<Record>, id: string)
    requires |events| >= LIMIT && id !in events
    ensures id !in Fold(valid, events, records)
    decreases |records|
  {
    if records != [] {
      var next := Arrive(valid, events, records[0]);
      assert next.Keys == events.Keys;
      assert |next| == |events|;
      FullStaysClosed(valid, next, records[1..], id);
    }
  }

  /** The journal fills up before it refuses anything. */
  lemma {:induction false} Fills(valid: Validity, events: Journal, records: seq<Record>)
    ensures |Fold(valid, events, records)| >= LIMIT || events.Keys + Names(valid, Elements(records)) <= Fold(valid, events, records).Keys
    decreases |records|
  {
    if records != [] {
      var r, rest := records[0], records[1..];
      var next := Arrive(valid, events, r);
      KeysGrow(valid, next, rest);
      Fills(valid, next, rest);
      assert Elements(records) == {r} + Elements(rest);
    }
  }

  lemma {:induction false} Enumerate(records: set<Record>) returns (list: seq<Record>)
    ensures Elements(list) == records
  {
    if records == {} {
      list := [];
    } else {
      var r :| r in records;
      var rest := Enumerate(records - {r});
      list := [r] + rest;
      assert Elements(list) == {r} + Elements(rest);
    }
  }

  /** A top record that arrives first stays, whatever other contents of its revision follow. */
  lemma FirstTopWins(valid: Validity, records: set<Record>, r: Record) returns (list: seq<Record>)
    requires Top(valid, records, r)
    ensures Elements(list) == records && r.id in Fold(valid, map[], list) && Fold(valid, map[], list)[r.id] == r
  {
    var rest := Enumerate(records);
    list := [r] + rest;
    assert list[1..] == rest;
    var first := Arrive(valid, map[], r);
    assert forall x | x in rest :: x in Elements(rest);
    TopStays(valid, first, rest, r.id);
  }

  lemma NamesSplit(valid: Validity, records: set<Record>, others: set<Record>, id: string)
    requires others == set r | r in records && r.id != id
    ensures Names(valid, records) - {id} == Names(valid, others) && |Names(valid, others)| >= |Names(valid, records)| - 1
  {
    assert Names(valid, records) - {id} == Names(valid, others);
  }

  /** Enough arrivals of other events leave no room for this one. */
  lemma OthersFill(valid: Validity, list: seq<Record>, id: string)
    requires |Names(valid, Elements(list))| >= LIMIT && id !in Names(valid, Elements(list))
    ensures |Fold(valid, map[], list)| >= LIMIT && id !in Fold(valid, map[], list)
  {
    var full := Fold(valid, map[], list);
    Fills(valid, map[], list);
    KeysGrow(valid, map[], list);
    if |full| < LIMIT { SubsetSize(Names(valid, Elements(list)), full.Keys); }
  }

  /** More than 64 events: any one of them can arrive last and be refused. */
  lemma LateEventRefused(valid: Validity, records: set<Record>, id: string) returns (list: seq<Record>)
    requires |Names(valid, records)| > LIMIT
    ensures Elements(list) == records && id !in Fold(valid, map[], list)
  {
    var others, own := set r | r in records && r.id != id, set r | r in records && r.id == id;
    var a := Enumerate(others);
    var b := Enumerate(own);
    list := a + b;
    assert Elements(list) == Elements(a) + Elements(b) == records;
    NamesSplit(valid, records, others, id);
    OthersFill(valid, a, id);
    FullStaysClosed(valid, Fold(valid, map[], a), b, id);
    FoldAppend(valid, map[], a, b);
  }
}
