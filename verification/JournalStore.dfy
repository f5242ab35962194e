/**
 The faucet journal on its store (packages/hosted-devnet/src/ledger.ts: mutate and the methods that call it). Every
 mutation of the journal bumps the revision, so along any history of the store the revision is the number of commits,
 no ledger is stored twice, and finding the content one has read means that nobody committed in between.
 */
module JournalStore {
  import opened Prelude
  import opened Journal
  import JsonStore

  /** The calls that go through the swap loop, each with the clock reading it took. */
  datatype Mutation =
    | GrantM(owner: string, asset: string, visitor: string, ip: string, day: int, now: int)
    | ObserveM(asset: string, bucket: int, now: int)
    | AcquireM(id: OpId, snapshot: Operation, holder: nat, now: int)
    | PersistM(id: OpId, lease: Lease, attempt: Attempt, now: int)
    | ReleaseM(lease: Lease, target: Option<OpState>, errorCode: Option<string>, now: int)
    | TransitionM(id: OpId, to: OpState, errorCode: Option<string>, now: int)
    | DisableM(reason: string)

  function Perform(m: Mutation, l: Ledger): Result<Ledger, Error>
  {
    match m
    case GrantM(owner, asset, visitor, ip, day, now) => ReserveGrant(l, owner, asset, visitor, ip, day, now)
    case ObserveM(asset, bucket, now) => ReserveObservation(l, asset, bucket, now)
    case AcquireM(id, snapshot, holder, now) => Acquire(l, id, snapshot, holder, now)
    case PersistM(id, lease, attempt, now) => PersistPrepared(l, id, lease, attempt, now)
    case ReleaseM(lease, state, errorCode, now) => Release(l, lease, state, errorCode, now)
    case TransitionM(id, state, errorCode, now) => Transition(l, id, state, errorCode, now)
    case DisableM(reason) => Ok(DisableFaucet(l, reason))
  }

  function Change(m: Mutation): Ledger -> Result<Ledger, Error>
  {
    l => Perform(m, l)
  }

  lemma MutationsBump(m: Mutation, l: Ledger)
    ensures Perform(m, l).Ok? ==> Perform(m, l).value.revision == l.revision + 1
  {
  }

  type History = seq<JsonStore.Commit<Ledger, Error>>

  ghost predicate IsMutation(f: Ledger -> Result<Ledger, Error>)
  {
    exists m :: f == Change(m)
  }

  /** A history of the journal's store: every commit is one of the journal's mutations of the commit before it. */
  ghost predicate JournalHistory(h: History)
  {
    JsonStore.Chain(h, EmptyLedger()) && forall i | 0 <= i < |h| :: IsMutation(h[i].change)
  }

  function RevisionOf(l: Ledger): int { l.revision }

  lemma ChangesBump(h: History)
    requires JournalHistory(h)
    ensures forall i, v, w | 0 <= i < |h| && h[i].change(v) == Ok(w) :: RevisionOf(w) == RevisionOf(v) + 1
  {
    forall i, v, w | 0 <= i < |h| && h[i].change(v) == Ok(w) ensures RevisionOf(w) == RevisionOf(v) + 1 {
      assert IsMutation(h[i].change);
      var m :| h[i].change == Change(m);
      MutationsBump(m, v);
    }
  }

  /** Commit k carries revision k + 1. */
  lemma RevisionIsCommitNumber(h: History, k: nat)
    requires JournalHistory(h) && k < |h|
    ensures h[k].value.revision == k + 1
  {
    ChangesBump(h);
    JsonStore.RevisionCountsCommits(h, EmptyLedger(), RevisionOf, k);
  }

  lemma LedgersNeverRepeat(h: History, i: nat, j: nat)
    requires JournalHistory(h) && i < j < |h|
    ensures h[i].value != h[j].value
  {
    ChangesBump(h);
    JsonStore.CommittedValuesNeverRepeat(h, EmptyLedger(), RevisionOf, i, j);
  }

  /** If the store holds what it held at an earlier moment, nothing was committed in between: content etags cannot suffer ABA. */
  lemma SameContentMeansNoCommit(earlier: History, later: History)
    requires JournalHistory(later) && earlier <= later && JsonStore.Top(earlier) == JsonStore.Top(later)
    ensures earlier == later
  {
    if |earlier| < |later| {
      RevisionIsCommitNumber(later, |later| - 1);
      if earlier != [] { RevisionIsCommitNumber(later, |earlier| - 1); }
    }
  }

  /** What the rest of the world does is journal mutations too. */
  ghost predicate OnlyMutations(schedule: seq<JsonStore.Attempt<Ledger, Error>>)
  {
    forall a, i | 0 <= a < |schedule| && 0 <= i < |schedule[a].others| :: IsMutation(schedule[a].others[i])
  }

  /**
   mutate: one journal call through the loop of eight attempts, whatever the other workers do. The store's history stays
   a history of journal mutations; on success this call's ledger is the last one and its revision is the number of commits.
   */
  method Mutate(store: JsonStore.CasStore<Ledger, Error>, m: Mutation, schedule: seq<JsonStore.Attempt<Ledger, Error>>)
    returns (r: Result<Ledger, JsonStore.Failure<Error>>)
    requires store.Valid() && store.initial == EmptyLedger() && JournalHistory(store.commits)
    requires |schedule| == 8 && OnlyMutations(schedule)
    modifies store
    ensures store.Valid() && JournalHistory(store.commits) && old(store.commits) <= store.commits
    ensures r.Ok? ==> store.commits != [] && store.current == Some(r.value) && r.value.revision == |store.commits|
    ensures r.Ok? ==> var k := |store.commits| - 1;
      Perform(m, JsonStore.Base(JsonStore.Top(store.commits[..k]), EmptyLedger())) == Ok(r.value)
    ensures r.Err? && r.error.Busy? ==> |store.commits| >= |old(store.commits)| + 8
  {
    r := store.MutateJson(Change(m), 8, schedule);
    forall k | 0 <= k < |store.commits| ensures IsMutation(store.commits[k].change) {
      if k < |old(store.commits)| { assert store.commits[k] == old(store.commits)[k]; }
      else { KnownIsMutation(store.commits[k].change, m, schedule); }
    }
    if r.Ok? {
      RevisionIsCommitNumber(store.commits, |store.commits| - 1);
      assert JsonStore.Linked(store.commits, EmptyLedger(), |store.commits| - 1);
    }
  }

  lemma KnownIsMutation(f: Ledger -> Result<Ledger, Error>, m: Mutation, schedule: seq<JsonStore.Attempt<Ledger, Error>>)
    requires JsonStore.Known(f, Change(m), schedule) && OnlyMutations(schedule)
    ensures IsMutation(f)
  {
    if f != Change(m) {
      var a :| 0 <= a < |schedule| && JsonStore.Foreign(f, schedule[a]);
      var i :| 0 <= i < |schedule[a].others| && f == schedule[a].others[i];
      assert IsMutation(schedule[a].others[i]);
    }
  }
}
