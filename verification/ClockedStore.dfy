/**
 Many workers update one value by reading it, then reading the clock, then swapping. This is the order of
 SessionLedgerRepository.transaction, charge and closeMeter (packages/hosted-broker/src/ledger.ts). Workers
 interleave and crash freely; the clock never goes back; a swap succeeds only on an unchanged version.
 */
module ClockedStore {
  import opened Prelude

  /** How an operation named by O changes a value at a clock reading, or why it is refused. */
  type Perform<!O, !T, !E> = (O, T, int) -> Result<T, E>

  datatype Phase<+T> = Idle | Seen(version: nat, value: T) | Timed(version: nat, value: T, now: int)

  datatype Commit<+O, +T> = Commit(op: O, at: int, value: T)

  datatype System<O, T> = System(value: T, clock: int, commits: seq<Commit<O, T>>, workers: map<nat, Phase<T>>)

  datatype Step<+O> =
    | Tick(to: int)
    | Read(w: nat)
    | ReadClock(w: nat)
    | Swap(w: nat, op: O)
    | Crash(w: nat)

  function At<O, T>(s: System<O, T>, w: nat): Phase<T>
  {
    if w in s.workers then s.workers[w] else Idle
  }

  /** The version is the number of commits. A refused operation or a lost race writes nothing. */
  function Apply<O, T, E>(perform: Perform<O, T, E>, s: System<O, T>, t: Step<O>): System<O, T>
  {
    match t
    case Tick(to) => if to >= s.clock then s.(clock := to) else s
    case Read(w) => s.(workers := s.workers[w := Seen(|s.commits|, s.value)])
    case ReadClock(w) =>
      var p := At(s, w);
      if p.Seen? then s.(workers := s.workers[w := Timed(p.version, p.value, s.clock)]) else s
    case Swap(w, op) =>
      var p := At(s, w);
      if !p.Timed? then s
      else
        var next := perform(op, p.value, p.now);
        var idle := s.(workers := s.workers[w := Idle]);
        if next.Err? || p.version != |s.commits| then idle
        else idle.(value := next.value, commits := s.commits + [Commit(op, p.now, next.value)])
    case Crash(w) => s.(workers := s.workers[w := Idle])
  }

  function Run<O, T, E>(perform: Perform<O, T, E>, s: System<O, T>, steps: seq<Step<O>>): System<O, T>
    decreases |steps|
  {
    if steps == [] then s else Run(perform, Apply(perform, s, steps[0]), steps[1..])
  }

  function Start<O, T>(initial: T, clock: int): System<O, T>
  {
    System(initial, clock, [], map[])
  }

  function LastAt<O, T>(commits: seq<Commit<O, T>>, clock: int): int
  {
    if commits == [] then clock else commits[|commits| - 1].at
  }

  function LastValue<O, T>(commits: seq<Commit<O, T>>, initial: T): T
  {
    if commits == [] then initial else commits[|commits| - 1].value
  }

  /** Commit k applied its operation to the value just before it, at a time no earlier than the commit before it. */
  ghost predicate Linked<O, T, E>(perform: Perform<O, T, E>, commits: seq<Commit<O, T>>, initial: T, clock: int, k: nat)
    requires k < |commits|
  {
    && perform(commits[k].op, LastValue(commits[..k], initial), commits[k].at) == Ok(commits[k].value)
    && LastAt(commits[..k], clock) <= commits[k].at
  }

  /** A history of atomic commits at non-decreasing times. */
  ghost predicate Chain<O, T, E>(perform: Perform<O, T, E>, commits: seq<Commit<O, T>>, initial: T, clock: int)
  {
    forall k | 0 <= k < |commits| :: Linked(perform, commits, initial, clock, k)
  }

  lemma ChainPrefix<O, T, E>(perform: Perform<O, T, E>, commits: seq<Commit<O, T>>, initial: T, clock: int, n: nat)
    requires Chain(perform, commits, initial, clock) && n <= |commits|
    ensures Chain(perform, commits[..n], initial, clock)
  {
    forall k | 0 <= k < n ensures Linked(perform, commits[..n], initial, clock, k) {
      assert commits[..n][..k] == commits[..k];
      assert Linked(perform, commits, initial, clock, k);
    }
  }

  lemma ChainSnoc<O, T, E>(perform: Perform<O, T, E>, commits: seq<Commit<O, T>>, initial: T, clock: int, c: Commit<O, T>)
    requires Chain(perform, commits, initial, clock) && LastAt(commits, clock) <= c.at
    requires perform(c.op, LastValue(commits, initial), c.at) == Ok(c.value)
    ensures Chain(perform, commits + [c], initial, clock)
  {
    var longer := commits + [c];
    forall k | 0 <= k < |longer| ensures Linked(perform, longer, initial, clock, k) {
      assert longer[..k] == commits[..k];
      if k < |commits| { assert Linked(perform, commits, initial, clock, k); }
      else { assert commits[..k] == commits; }
    }
  }

  /** The value after the first n commits. */
  function ValueAfter<O, T>(commits: seq<Commit<O, T>>, initial: T, n: nat): T
    requires n <= |commits|
  {
    if n == 0 then initial else commits[n - 1].value
  }

  /** A worker's snapshot is the value that was stored at its version. */
  ghost predicate PhaseOk<O, T>(s: System<O, T>, initial: T, clock: int, p: Phase<T>)
  {
    match p
    case Idle => true
    case Seen(version, value) => version <= |s.commits| && value == ValueAfter(s.commits, initial, version)
    case Timed(version, value, now) =>
      && now <= s.clock && version <= |s.commits| && value == ValueAfter(s.commits, initial, version)
      && (version == |s.commits| ==> LastAt(s.commits, clock) <= now)
  }

  ghost predicate Inv<O, T, E>(perform: Perform<O, T, E>, s: System<O, T>, initial: T, clock: int)
  {
    && s.value == LastValue(s.commits, initial)
    && LastAt(s.commits, clock) <= s.clock
    && Chain(perform, s.commits, initial, clock)
    && (forall w | w in s.workers :: PhaseOk(s, initial, clock, s.workers[w]))
  }

  lemma ApplyKeeps<O, T, E>(perform: Perform<O, T, E>, s: System<O, T>, t: Step<O>, initial: T, clock: int)
    requires Inv(perform, s, initial, clock)
    ensures Inv(perform, Apply(perform, s, t), initial, clock)
  {
    var u := Apply(perform, s, t);
    if u.commits != s.commits {
      assert PhaseOk(s, initial, clock, At(s, t.w));
      ChainSnoc(perform, s.commits, initial, clock, u.commits[|s.commits|]);
    }
    forall w | w in u.workers ensures PhaseOk(u, initial, clock, u.workers[w]) {
      if w in s.workers { assert PhaseOk(s, initial, clock, s.workers[w]); }
    }
  }

  lemma {:induction false} RunKeeps<O, T, E>(perform: Perform<O, T, E>, s: System<O, T>, steps: seq<Step<O>>, initial: T, clock: int)
    requires Inv(perform, s, initial, clock)
    ensures Inv(perform, Run(perform, s, steps), initial, clock)
    decreases |steps|
  {
    if steps != [] {
      ApplyKeeps(perform, s, steps[0], initial, clock);
      RunKeeps(perform, Apply(perform, s, steps[0]), steps[1..], initial, clock);
    }
  }

  /** In every interleaving the commits are one chain of atomic operations at non-decreasing times. */
  lemma CommitsAreOrdered<O, T, E>(perform: Perform<O, T, E>, initial: T, clock: int, steps: seq<Step<O>>)
    ensures var s := Run(perform, Start(initial, clock), steps);
      Chain(perform, s.commits, initial, clock) && s.value == LastValue(s.commits, initial)
  {
    RunKeeps(perform, Start(initial, clock), steps, initial, clock);
  }

  lemma {:induction false} RunAppend<O, T, E>(perform: Perform<O, T, E>, s: System<O, T>, xs: seq<Step<O>>, ys: seq<Step<O>>)
    ensures Run(perform, s, xs + ys) == Run(perform, Run(perform, s, xs), ys)
    decreases |xs|
  {
    if xs == [] {
      assert xs + ys == ys;
    } else {
      assert (xs + ys)[1..] == xs[1..] + ys;
      RunAppend(perform, Apply(perform, s, xs[0]), xs[1..], ys);
    }
  }

  /** One undisturbed worker commits an operation at a given time. */
  lemma SoloCommit<O, T, E>(perform: Perform<O, T, E>, s: System<O, T>, op: O, at: int) returns (steps: seq<Step<O>>)
    requires s.clock <= at && perform(op, s.value, at).Ok?
    ensures var t := Run(perform, s, steps); var v := perform(op, s.value, at).value;
      t.commits == s.commits + [Commit(op, at, v)] && t.value == v && t.clock == at
  {
    var s1 := Apply(perform, s, Tick(at));
    var s2 := Apply(perform, s1, Read(0));
    var s3 := Apply(perform, s2, ReadClock(0));
    var s4 := Apply(perform, s3, Swap(0, op));
    steps := [Tick(at), Read(0), ReadClock(0), Swap(0, op)];
    assert steps[1..] == [Read(0), ReadClock(0), Swap(0, op)];
    assert steps[1..][1..] == [ReadClock(0), Swap(0, op)];
    assert steps[1..][1..][1..] == [Swap(0, op)];
    assert Run(perform, s3, steps[1..][1..][1..]) == Run(perform, s4, []) == s4;
    assert Run(perform, s2, steps[1..][1..]) == s4;
    assert Run(perform, s1, steps[1..]) == s4;
  }

  /** The converse of CommitsAreOrdered: every chain is the history of some run. */
  lemma {:induction false} ChainIsRun<O, T, E>(perform: Perform<O, T, E>, h: seq<Commit<O, T>>, initial: T, clock: int) returns (steps: seq<Step<O>>)
    requires Chain(perform, h, initial, clock)
    ensures var s := Run(perform, Start(initial, clock), steps);
      s.commits == h && s.value == LastValue(h, initial) && s.clock == LastAt(h, clock)
    decreases |h|
  {
    if h == [] {
      steps := [];
    } else {
      var n := |h| - 1;
      ChainPrefix(perform, h, initial, clock, n);
      var before := ChainIsRun(perform, h[..n], initial, clock);
      var s := Run(perform, Start(initial, clock), before);
      assert Linked(perform, h, initial, clock, n);
      var last := SoloCommit(perform, s, h[n].op, h[n].at);
      RunAppend(perform, Start(initial, clock), before, last);
      steps := before + last;
      assert h == h[..n] + [h[n]];
    }
  }

  // ----- swaps on content -----

  /** A step in which the swap compares the stored value with the one read, as a content etag does. */
  ghost function ApplyByContent<O, T, E>(perform: Perform<O, T, E>, s: System<O, T>, t: Step<O>): System<O, T>
  {
    if !t.Swap? || !At(s, t.w).Timed? then Apply(perform, s, t)
    else
      var p := At(s, t.w);
      var next := perform(t.op, p.value, p.now);
      var idle := s.(workers := s.workers[t.w := Idle]);
      if next.Err? || p.value != s.value then idle
      else idle.(value := next.value, commits := s.commits + [Commit(t.op, p.now, next.value)])
  }

  ghost function RunByContent<O, T, E>(perform: Perform<O, T, E>, s: System<O, T>, steps: seq<Step<O>>): System<O, T>
    decreases |steps|
  {
    if steps == [] then s else RunByContent(perform, ApplyByContent(perform, s, steps[0]), steps[1..])
  }

  /** The initial value and all committed values are different. */
  ghost predicate NeverRepeats<O, T>(h: seq<Commit<O, T>>, initial: T)
  {
    forall i, j | 0 <= i < j <= |h| :: ValueAfter(h, initial, i) != ValueAfter(h, initial, j)
  }

  /** Every operation that commits raises the rank of the value by one. */
  ghost predicate Raises<O(!new), T(!new), E>(perform: Perform<O, T, E>, rank: T -> int)
  {
    forall op, v, now | perform(op, v, now).Ok? :: rank(perform(op, v, now).value) == rank(v) + 1
  }

  /** Then the rank counts the commits. */
  lemma {:induction false} RankCounts<O(!new), T(!new), E>(perform: Perform<O, T, E>, h: seq<Commit<O, T>>, initial: T, clock: int, rank: T -> int, n: nat)
    requires Chain(perform, h, initial, clock) && Raises(perform, rank) && n <= |h|
    ensures rank(ValueAfter(h, initial, n)) == rank(initial) + n
  {
    if n > 0 {
      RankCounts(perform, h, initial, clock, rank, n - 1);
      assert Linked(perform, h, initial, clock, n - 1);
    }
  }

  lemma RankedNeverRepeats<O(!new), T(!new), E>(perform: Perform<O, T, E>, h: seq<Commit<O, T>>, initial: T, clock: int, rank: T -> int)
    requires Chain(perform, h, initial, clock) && Raises(perform, rank)
    ensures NeverRepeats(h, initial)
  {
    forall i, j | 0 <= i < j <= |h| ensures ValueAfter(h, initial, i) != ValueAfter(h, initial, j) {
      RankCounts(perform, h, initial, clock, rank, i);
      RankCounts(perform, h, initial, clock, rank, j);
    }
  }

  lemma ContentStepAgrees<O, T, E>(perform: Perform<O, T, E>, s: System<O, T>, t: Step<O>, initial: T, clock: int)
    requires Inv(perform, s, initial, clock) && NeverRepeats(s.commits, initial)
    ensures ApplyByContent(perform, s, t) == Apply(perform, s, t)
  {
    if t.Swap? && At(s, t.w).Timed? {
      assert PhaseOk(s, initial, clock, At(s, t.w));
      assert s.value == ValueAfter(s.commits, initial, |s.commits|);
    }
  }

  lemma {:induction false} ContentRunAgrees<O(!new), T(!new), E>(perform: Perform<O, T, E>, s: System<O, T>, steps: seq<Step<O>>, initial: T, clock: int, rank: T -> int)
    requires Inv(perform, s, initial, clock) && Raises(perform, rank)
    ensures RunByContent(perform, s, steps) == Run(perform, s, steps)
    decreases |steps|
  {
    if steps != [] {
      RankedNeverRepeats(perform, s.commits, initial, clock, rank);
      ContentStepAgrees(perform, s, steps[0], initial, clock);
      ApplyKeeps(perform, s, steps[0], initial, clock);
      ContentRunAgrees(perform, Apply(perform, s, steps[0]), steps[1..], initial, clock, rank);
    }
  }

  /** Swapping on equal content does exactly what swapping on an equal version does, so there is no ABA. */
  lemma ContentSwapAgrees<O(!new), T(!new), E>(perform: Perform<O, T, E>, initial: T, clock: int, steps: seq<Step<O>>, rank: T -> int)
    requires Raises(perform, rank)
    ensures RunByContent(perform, Start(initial, clock), steps) == Run(perform, Start(initial, clock), steps)
  {
    ContentRunAgrees(perform, Start(initial, clock), steps, initial, clock, rank);
  }
}
