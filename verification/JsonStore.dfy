/**
 The compare-and-swap JSON store and its optimistic update loop
 (packages/hosted-broker/src/json-store.ts).

 A store holds at most one value. Other workers are present as a schedule: for each
 attempt it says which mutations of other workers land between the read and the swap, and
 whether a store call throws. A throwing swap may or may not have committed.
 */
module JsonStore {
  import opened Prelude

  /** One committed write: who made it, and the mutation it applied. */
  datatype Commit<!T, !E> = Commit(mine: bool, change: T -> Result<T, E>, value: T)

  datatype Fault = NoFault | ReadThrows | SwapThrows(committed: bool)

  /** What the rest of the world does during one attempt. */
  datatype Attempt<!T, !E> = Attempt(others: seq<T -> Result<T, E>>, fault: Fault)

  datatype Failure<+E> = Rejected(error: E) | Busy | Threw(committed: bool)

  /** The value a chain of commits leaves in the store. */
  ghost function Top<T, E>(commits: seq<Commit<T, E>>): (top: Option<T>)
  {
    if commits == [] then None else Some(commits[|commits| - 1].value)
  }

  /** The value a mutation starts from when the store holds `top`. */
  function Base<T>(top: Option<T>, initial: T): T
  {
    if top.Some? then top.value else initial
  }

  /** Commit number k applied its own mutation to the value committed just before it. */
  ghost predicate Linked<T, E>(commits: seq<Commit<T, E>>, initial: T, k: nat)
    requires k < |commits|
  {
    commits[k].change(Base(Top(commits[..k]), initial)) == Ok(commits[k].value)
  }

  ghost predicate Chain<T, E>(commits: seq<Commit<T, E>>, initial: T)
  {
    forall k | 0 <= k < |commits| :: Linked(commits, initial, k)
  }

  ghost function Mine<T, E>(commits: seq<Commit<T, E>>): (n: nat)
    ensures n <= |commits|
  {
    if commits == [] then 0
    else Mine(commits[..|commits| - 1]) + if commits[|commits| - 1].mine then 1 else 0
  }

  lemma ChainSnoc<T, E>(commits: seq<Commit<T, E>>, initial: T, c: Commit<T, E>)
    requires Chain(commits, initial)
    requires c.change(Base(Top(commits), initial)) == Ok(c.value)
    ensures Chain(commits + [c], initial)
    ensures Mine(commits + [c]) == Mine(commits) + if c.mine then 1 else 0
    ensures Top(commits + [c]) == Some(c.value)
  {
    var longer := commits + [c];
    assert longer[..|commits|] == commits;
    forall k | 0 <= k < |longer| ensures Linked(longer, initial, k) {
      if k < |commits| {
        assert longer[..k] == commits[..k];
        assert Linked(commits, initial, k);
      }
    }
  }

  /**
   If every mutation bumps a revision counter, then the k-th commit carries revision k + 1.
   Committed values therefore never repeat, and an etag derived from the content alone
   identifies one commit.
   */
  lemma {:induction false} RevisionCountsCommits<T, E>(commits: seq<Commit<T, E>>, initial: T, revision: T -> int, k: nat)
    requires Chain(commits, initial)
    requires revision(initial) == 0
    requires forall i, v, w | 0 <= i < |commits| && commits[i].change(v) == Ok(w) :: revision(w) == revision(v) + 1
    requires k < |commits|
    ensures revision(commits[k].value) == k + 1
  {
    assert Linked(commits, initial, k);
    if k > 0 {
      RevisionCountsCommits(commits, initial, revision, k - 1);
      assert commits[..k][k - 1] == commits[k - 1];
    }
  }

  lemma CommittedValuesNeverRepeat<T, E>(commits: seq<Commit<T, E>>, initial: T, revision: T -> int, i: nat, j: nat)
    requires Chain(commits, initial)
    requires revision(initial) == 0
    requires forall i, v, w | 0 <= i < |commits| && commits[i].change(v) == Ok(w) :: revision(w) == revision(v) + 1
    requires i < j < |commits|
    ensures commits[i].value != commits[j].value
  {
    RevisionCountsCommits(commits, initial, revision, i);
    RevisionCountsCommits(commits, initial, revision, j);
  }

  /** The history after other workers' mutations land in order; a rejected one writes nothing. */
  ghost function Landed<T, E>(commits: seq<Commit<T, E>>, initial: T, others: seq<T -> Result<T, E>>): (after: seq<Commit<T, E>>)
    decreases |others|
  {
    if others == [] then commits
    else
      var next := others[0](Base(Top(commits), initial));
      Landed(if next.Ok? then commits + [Commit(false, others[0], next.value)] else commits, initial, others[1..])
  }

  /** The mutation is one that another worker may land during the attempt. */
  ghost predicate Foreign<T, E>(f: T -> Result<T, E>, world: Attempt<T, E>)
  {
    exists i :: 0 <= i < |world.others| && f == world.others[i]
  }

  /** The mutation is the caller's own or another worker's. */
  ghost predicate Known<T, E>(f: T -> Result<T, E>, change: T -> Result<T, E>, schedule: seq<Attempt<T, E>>)
  {
    f == change || exists a :: 0 <= a < |schedule| && Foreign(f, schedule[a])
  }

  /** A store path shared by all workers. `commits` is the history of accepted writes. */
  class CasStore<T(==), E> {
    const initial: T
    var current: Option<T>
    ghost var commits: seq<Commit<T, E>>

    ghost predicate Valid()
      reads this
    {
      Chain(commits, initial) && current == Top(commits)
    }

    constructor (initial: T)
      ensures Valid() && this.initial == initial && commits == []
    {
      this.initial := initial;
      current := None;
      commits := [];
    }

    /** create when nothing was read, compareAndSwap on a content etag otherwise. */
    method Swap(expected: Option<T>, next: T, mine: bool, ghost change: T -> Result<T, E>) returns (saved: bool)
      requires Valid()
      requires change(Base(expected, initial)) == Ok(next)
      modifies this
      ensures Valid()
      ensures saved == (old(current) == expected)
      ensures saved ==> commits == old(commits) + [Commit(mine, change, next)] && current == Some(next)
      ensures !saved ==> commits == old(commits) && current == old(current)
    {
      saved := current == expected;
      if saved {
        ChainSnoc(commits, initial, Commit(mine, change, next));
        commits := commits + [Commit(mine, change, next)];
        current := Some(next);
      }
    }

    method Interfere(others: seq<T -> Result<T, E>>)
      requires Valid()
      modifies this
      ensures Valid()
      ensures commits == Landed(old(commits), initial, others)
      ensures old(commits) <= commits && Mine(commits) == Mine(old(commits))
      ensures forall k | |old(commits)| <= k < |commits| :: exists i :: 0 <= i < |others| && commits[k].change == others[i]
    {
      for i := 0 to |others|
        invariant Valid()
        invariant old(commits) <= commits
        invariant forall k | |old(commits)| <= k < |commits| :: exists j :: 0 <= j < i && commits[k].change == others[j]
        invariant old(commits) <= commits && Mine(commits) == Mine(old(commits))
        invariant Landed(commits, initial, others[i..]) == Landed(old(commits), initial, others)
      {
        var next := others[i](Base(current, initial));
        assert others[i..][1..] == others[i + 1..];
        if next.Ok? {
          ChainSnoc(commits, initial, Commit(false, others[i], next.value));
          var _ := Swap(current, next.value, false, others[i]);
        }
      }
    }

    /** One turn of the loop: read, change, swap. None means the swap was lost to another worker's commit. */
    method TryOnce(change: T -> Result<T, E>, world: Attempt<T, E>) returns (r: Option<Result<T, Failure<E>>>)
      requires Valid()
      modifies this
      ensures Valid() && old(commits) <= commits
      ensures forall k | |old(commits)| <= k < |commits| :: commits[k].change == change || Foreign(commits[k].change, world)
      ensures r == None ==> Mine(commits) == Mine(old(commits)) && |commits| > |old(commits)|
      ensures r.Some? && r.value.Ok? ==> Mine(commits) == Mine(old(commits)) + 1 && current == Some(r.value.value)
                                         && commits != [] && commits[|commits| - 1] == Commit(true, change, r.value.value)
      ensures r.Some? && r.value.Err? ==>
        && !r.value.error.Busy?
        && Mine(commits) == Mine(old(commits)) + (if r.value.error.Threw? && r.value.error.committed then 1 else 0)
        && (r.value.error.Threw? ==> world.fault != NoFault)
        && (r.value.error.Rejected? ==> change(Base(Top(old(commits)), initial)) == Err(r.value.error.error))
    {
      if world.fault.ReadThrows? { return Some(Err(Threw(false))); }
      var seen := current;
      var next := change(Base(seen, initial));
      if next.Err? { return Some(Err(Rejected(next.error))); }
      Interfere(world.others);
      assert forall k | |old(commits)| <= k < |commits| :: Foreign(commits[k].change, world);
      if world.fault.SwapThrows? && !world.fault.committed { return Some(Err(Threw(false))); }
      if current == seen { ChainSnoc(commits, initial, Commit(true, change, next.value)); }
      var saved := Swap(seen, next.value, true, change);
      if world.fault.SwapThrows? { return Some(Err(Threw(saved))); }
      if saved { return Some(Ok(next.value)); }
      return None;
    }

    /**
     The bounded optimistic loop. On success the last commit of the store is this call's own
     mutation applied to the commit just before it. In every outcome all earlier commits are
     kept, and this call has committed exactly once on success, never on rejection or
     exhaustion, and as the fault says when a swap threw. It gives up only after losing every
     attempt to somebody else's commit, and rejects only what a committed value rejects.
     */
    method MutateJson(change: T -> Result<T, E>, attempts: nat, schedule: seq<Attempt<T, E>>)
      returns (r: Result<T, Failure<E>>)
      requires Valid()
      requires |schedule| == attempts
      modifies this
      ensures Valid()
      ensures old(commits) <= commits
      ensures forall k | |old(commits)| <= k < |commits| :: Known(commits[k].change, change, schedule)
      ensures r.Ok? ==> commits != [] && commits[|commits| - 1] == Commit(true, change, r.value) && current == Some(r.value)
      ensures r.Ok? ==> Mine(commits) == Mine(old(commits)) + 1
      ensures r.Err? && r.error.Threw? && r.error.committed ==> Mine(commits) == Mine(old(commits)) + 1
      ensures r.Err? && !(r.error.Threw? && r.error.committed) ==> Mine(commits) == Mine(old(commits))
      ensures r == Err(Busy) ==> |commits| >= |old(commits)| + attempts
      ensures r.Err? && r.error.Threw? ==> exists a :: a in schedule && a.fault != NoFault
      ensures r.Err? && r.error.Rejected? ==>
        exists k :: |old(commits)| <= k <= |commits| && change(Base(Top(commits[..k]), initial)) == Err(r.error.error)
    {
      for attempt := 0 to attempts
        invariant Valid() && old(commits) <= commits && Mine(commits) == Mine(old(commits))
        invariant |commits| >= |old(commits)| + attempt
        invariant forall k | |old(commits)| <= k < |commits| :: Known(commits[k].change, change, schedule)
      {
        ghost var before := commits;
        var turn := TryOnce(change, schedule[attempt]);
        forall k | |old(commits)| <= k < |commits| ensures Known(commits[k].change, change, schedule) {
          if k < |before| { assert commits[k] == before[k]; }
        }
        if turn.Some? {
          assert commits[..|before|] == before;
          return turn.value;
        }
      }
      return Err(Busy);
    }
  }
}
