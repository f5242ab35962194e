/**
 Resumable transaction steps (packages/devnet-runtime/src/transactions.ts): executeResumableStep and
 reconcilePersistedAttempt against a chain, for one step name, over any number of crashes and restarts.

 Every await is a step of the process, answered at will by the environment. The state file is replaced atomically,
 but a write may throw after it took effect, or without; so may a submission. A signature executes at most once
 and only if it was submitted; a status that reports an error or a confirmation is true and final.
 */
module ResumableStep {
  import opened Prelude

  type Signature = string

  datatype Attempt = Attempt(signature: Signature, lastValidBlockHeight: int)

  /** Where the process is: the await it will resume from. */
  datatype Phase =
    | Off                                          // no process
    | Idle                                         // between calls
    | First                                        // the first check
    | Inspecting | Measuring | InspectingAgain     // status of the last attempt, block height, status after expiry
    | Verifying                                    // check after a confirmed status
    | Second                                       // the check before signing
    | Signing | Persisting | Sending | Recording | Confirming | Closing

  datatype Status = Unknown | Errored | Confirmed

  /** What a finished call returned, and whether the check it made last held. */
  datatype Return = Return(signature: Option<Signature>, checked: bool)

  /** `landed` says of an executed signature whether it succeeded. */
  datatype System = System(
    phase: Phase, memory: seq<Attempt>, disk: seq<Attempt>, sent: set<Signature>, landed: map<Signature, bool>,
    held: bool, results: seq<Return>)

  datatype Step =
    | Boot
    | Call
    | Check(holds: bool)
    | Query(status: Status)
    | Height(height: int)
    | Sign(attempt: Attempt)
    | Write(commits: bool, ok: bool)
    | Submit(reached: bool, ok: bool)
    | Confirm
    | Throw
    | Crash
    | Land(signature: Signature, success: bool)

  /** Whether a confirmed step may be repeated, and whether a caller tries again although its attempt write was lost. */
  datatype Options = Options(repeatable: bool, ignoresLostWrites: bool)

  function Start(): System { System(Off, [], [], {}, map[], false, []) }

  predicate InCall(p: Phase) { !p.Off? && !p.Idle? }

  function Last(log: seq<Attempt>): Attempt
    requires log != []
  {
    log[|log| - 1]
  }

  /**
   A thrown error ends the call; the caller may call again at once, or a crash may follow. Only when memory holds an
   attempt the file does not hold, because writing it failed, is a caller expected to leave the process.
   */
  function Failed(o: Options, s: System): System
  {
    s.(phase := if s.memory == s.disk || o.ignoresLostWrites then Idle else Off)
  }

  function Returned(s: System, signature: Option<Signature>): System
  {
    s.(phase := Idle, results := s.results + [Return(signature, s.held)])
  }

  function CheckStep(o: Options, s: System, holds: bool): System
  {
    var t := s.(held := holds);
    match s.phase
    case First => if holds then Returned(t, None) else t.(phase := if s.memory == [] then Second else Inspecting)
    case Verifying =>
      if holds && s.memory != [] then Returned(t, Some(Last(s.memory).signature))
      else if o.repeatable then t.(phase := Second)
      else Failed(o, t)
    case Second => if holds then Returned(t, None) else t.(phase := Signing)
    case Closing => if holds && s.memory != [] then Returned(t, Some(Last(s.memory).signature)) else Failed(o, t)
    case _ => s
  }

  /** What the chain may truthfully answer. */
  predicate Truthful(s: System, signature: Signature, status: Status)
  {
    match status
    case Unknown => true
    case Errored => signature in s.landed && !s.landed[signature]
    case Confirmed => signature in s.landed && s.landed[signature]
  }

  function QueryStep(o: Options, s: System, status: Status): System
  {
    if !(s.phase.Inspecting? || s.phase.InspectingAgain?) || s.memory == [] || !Truthful(s, Last(s.memory).signature, status) then s
    else match status
      case Errored => s.(phase := Second)
      case Confirmed => s.(phase := Verifying)
      case Unknown => if s.phase.Inspecting? then s.(phase := Measuring) else Failed(o, s)
  }

  function WriteStep(o: Options, s: System, commits: bool, ok: bool): System
  {
    if !(s.phase.Persisting? || s.phase.Recording?) || (ok && !commits) then s
    else
      var t := if commits then s.(disk := s.memory) else s;
      if !ok then Failed(o, t) else t.(phase := if s.phase.Persisting? then Sending else Confirming)
  }

  function SubmitStep(o: Options, s: System, reached: bool, ok: bool): System
  {
    if !s.phase.Sending? || s.memory == [] || (ok && !reached) then s
    else
      var t := if reached then s.(sent := s.sent + {Last(s.memory).signature}) else s;
      if ok then t.(phase := Recording) else Failed(o, t)
  }

  function Apply(o: Options, s: System, t: Step): System
  {
    match t
    case Boot => if s.phase.Off? then s.(phase := Idle, memory := s.disk) else s
    case Call => if s.phase.Idle? then s.(phase := First) else s
    case Check(holds) => CheckStep(o, s, holds)
    case Query(status) => QueryStep(o, s, status)
    case Height(height) =>
      if !s.phase.Measuring? || s.memory == [] then s
      else s.(phase := if height > Last(s.memory).lastValidBlockHeight then InspectingAgain else Sending)
    case Sign(attempt) => if s.phase.Signing? then s.(phase := Persisting, memory := s.memory + [attempt]) else s
    case Write(commits, ok) => WriteStep(o, s, commits, ok)
    case Submit(reached, ok) => SubmitStep(o, s, reached, ok)
    case Confirm =>
      if s.phase.Confirming? && s.memory != [] && Truthful(s, Last(s.memory).signature, Confirmed) then s.(phase := Closing) else s
    case Throw => if InCall(s.phase) then Failed(o, s) else s
    case Crash => s.(phase := Off)
    case Land(signature, success) =>
      if signature in s.sent && signature !in s.landed then s.(landed := s.landed[signature := success]) else s
  }

  function Run(o: Options, s: System, steps: seq<Step>): System
    decreases |steps|
  {
    if steps == [] then s else Run(o, Apply(o, s, steps[0]), steps[1..])
  }

  // ----- the invariant -----

  /** The attempt is done with: it failed on chain, or it succeeded and the step may be repeated. */
  predicate Settled(o: Options, s: System, a: Attempt)
  {
    a.signature in s.landed && (s.landed[a.signature] ==> o.repeatable)
  }

  ghost predicate AllSettled(o: Options, s: System, log: seq<Attempt>)
  {
    forall i | 0 <= i < |log| :: Settled(o, s, log[i])
  }

  ghost predicate Persisted(s: System, signature: Signature)
  {
    exists i :: 0 <= i < |s.disk| && s.disk[i].signature == signature
  }

  /** Every attempt on disk but the last is settled, although no code ever looks at it again. */
  ghost predicate LogOk(o: Options, s: System)
  {
    && (forall i | 0 <= i < |s.disk| - 1 :: Settled(o, s, s.disk[i]))
    && (forall x | x in s.sent :: Persisted(s, x))
    && s.landed.Keys <= s.sent
  }

  ghost predicate PhaseOk(o: Options, s: System)
  {
    && (s.phase.Off? || s.phase.Persisting? || s.memory == s.disk)
    && (s.phase in {Inspecting, Measuring, InspectingAgain, Verifying, Sending, Recording, Confirming, Closing} ==> s.memory != [])
    && (s.phase in {Second, Signing} ==> AllSettled(o, s, s.disk))
    && (s.phase.Persisting? ==> s.memory != [] && s.memory[..|s.memory| - 1] == s.disk && AllSettled(o, s, s.disk))
    && (s.phase in {Verifying, Closing} ==> s.landed.Keys >= {Last(s.memory).signature} && s.landed[Last(s.memory).signature])
  }

  ghost predicate ReturnOk(s: System, r: Return)
  {
    r.checked && (r.signature.Some? ==> r.signature.value in s.landed && s.landed[r.signature.value])
  }

  ghost predicate Inv(o: Options, s: System)
  {
    LogOk(o, s) && PhaseOk(o, s)
  }

  /** A step that moves between phases only. */
  lemma PhaseMoves(o: Options, s: System, t: System)
    requires Inv(o, s) && PhaseOk(o, t)
    requires t == s.(phase := t.phase, held := t.held, results := t.results) || (t == s.(phase := t.phase, memory := t.memory))
    ensures Inv(o, t)
  {
    assert forall i | 0 <= i < |s.disk| :: Settled(o, t, s.disk[i]) == Settled(o, s, s.disk[i]);
    forall x | x in t.sent ensures Persisted(t, x) { assert Persisted(s, x); }
  }

  lemma CheckKeeps(o: Options, s: System, holds: bool)
    requires Inv(o, s) && !o.ignoresLostWrites
    ensures Inv(o, CheckStep(o, s, holds))
  {
    PhaseMoves(o, s, CheckStep(o, s, holds));
  }

  lemma QueryKeeps(o: Options, s: System, status: Status)
    requires Inv(o, s) && !o.ignoresLostWrites
    ensures Inv(o, QueryStep(o, s, status))
  {
    PhaseMoves(o, s, QueryStep(o, s, status));
  }

  lemma WriteKeeps(o: Options, s: System, commits: bool, ok: bool)
    requires Inv(o, s) && !o.ignoresLostWrites
    ensures Inv(o, WriteStep(o, s, commits, ok))
  {
    var t := WriteStep(o, s, commits, ok);
    forall x | x in t.sent ensures Persisted(t, x) {
      var i :| 0 <= i < |s.disk| && s.disk[i].signature == x;
      assert t.disk[i] == s.disk[i];
    }
    forall i | 0 <= i < |t.disk| - 1 ensures Settled(o, t, t.disk[i]) {
      assert t.disk[i] == s.disk[i];
      assert Settled(o, s, s.disk[i]);
    }
  }

  lemma SubmitKeeps(o: Options, s: System, reached: bool, ok: bool)
    requires Inv(o, s) && !o.ignoresLostWrites
    ensures Inv(o, SubmitStep(o, s, reached, ok))
  {
    var t := SubmitStep(o, s, reached, ok);
    assert forall i | 0 <= i < |s.disk| :: Settled(o, t, s.disk[i]) == Settled(o, s, s.disk[i]);
    forall x | x in t.sent ensures Persisted(t, x) {
      if x in s.sent { assert Persisted(s, x); } else { assert t.disk[|t.disk| - 1].signature == x; }
    }
  }

  lemma LandKeeps(o: Options, s: System, signature: Signature, success: bool)
    requires Inv(o, s)
    ensures Inv(o, Apply(o, s, Land(signature, success)))
  {
    var t := Apply(o, s, Land(signature, success));
    assert forall i | 0 <= i < |s.disk| :: Settled(o, s, s.disk[i]) ==> Settled(o, t, s.disk[i]);
    forall x | x in t.sent ensures Persisted(t, x) { assert Persisted(s, x); }
  }

  /** Booting, calling, throwing and crashing touch neither the disk nor the chain. */
  lemma ProcessKeeps(o: Options, s: System, t: Step)
    requires Inv(o, s) && !o.ignoresLostWrites && (t.Boot? || t.Call? || t.Throw? || t.Crash?)
    ensures Inv(o, Apply(o, s, t))
  {
    PhaseMoves(o, s, Apply(o, s, t));
  }

  lemma LocalKeeps(o: Options, s: System, t: Step)
    requires Inv(o, s) && !o.ignoresLostWrites && (t.Height? || t.Sign? || t.Confirm?)
    ensures Inv(o, Apply(o, s, t))
  {
    PhaseMoves(o, s, Apply(o, s, t));
  }

  lemma ApplyKeeps(o: Options, s: System, t: Step)
    requires Inv(o, s) && !o.ignoresLostWrites
    ensures Inv(o, Apply(o, s, t))
  {
    match t
    case Check(holds) => CheckKeeps(o, s, holds);
    case Query(status) => QueryKeeps(o, s, status);
    case Write(commits, ok) => WriteKeeps(o, s, commits, ok);
    case Submit(reached, ok) => SubmitKeeps(o, s, reached, ok);
    case Land(signature, success) => LandKeeps(o, s, signature, success);
    case Height(_) => LocalKeeps(o, s, t);
    case Sign(_) => LocalKeeps(o, s, t);
    case Confirm => LocalKeeps(o, s, t);
    case _ => ProcessKeeps(o, s, t);
  }

  lemma {:induction false} RunKeeps(o: Options, s: System, steps: seq<Step>)
    requires Inv(o, s) && !o.ignoresLostWrites
    ensures Inv(o, Run(o, s, steps))
    decreases |steps|
  {
    if steps != [] {
      ApplyKeeps(o, s, steps[0]);
      RunKeeps(o, Apply(o, s, steps[0]), steps[1..]);
    }
  }

  // ----- results -----

  lemma StartOk(o: Options)
    ensures Inv(o, Start())
  {
  }

  /** No two signatures of the step succeeded. */
  ghost predicate OneSuccess(s: System)
  {
    forall x, y | x in s.landed && y in s.landed && s.landed[x] && s.landed[y] :: x == y
  }

  lemma SuccessIsLast(o: Options, s: System, x: Signature)
    requires Inv(o, s) && !o.repeatable && x in s.landed && s.landed[x]
    ensures s.disk != [] && Last(s.disk).signature == x
  {
    assert Persisted(s, x);
    var i :| 0 <= i < |s.disk| && s.disk[i].signature == x;
    assert i < |s.disk| - 1 ==> Settled(o, s, s.disk[i]);
  }

  /** Over every run that ignores no lost write, every submitted signature is on disk, and every attempt on disk but the last is settled. */
  lemma WriteAhead(repeatable: bool, steps: seq<Step>)
    ensures var o := Options(repeatable, false); var s := Run(o, Start(), steps);
      && (forall x | x in s.sent :: Persisted(s, x))
      && (forall i | 0 <= i < |s.disk| - 1 :: Settled(o, s, s.disk[i]))
  {
    var o := Options(repeatable, false);
    StartOk(o);
    RunKeeps(o, Start(), steps);
  }

  /** A new signature is only made once every earlier submission has settled: an expired attempt of unknown outcome blocks it. */
  lemma NewSignatureOnlyWhenSettled(repeatable: bool, steps: seq<Step>, t: Step)
    requires var o := Options(repeatable, false); var s := Run(o, Start(), steps);
      t.Sign? && Apply(o, s, t) != s
    ensures var o := Options(repeatable, false); var s := Run(o, Start(), steps);
      forall x | x in s.sent :: x in s.landed && (s.landed[x] ==> repeatable)
  {
    var o := Options(repeatable, false);
    var s := Run(o, Start(), steps);
    StartOk(o);
    RunKeeps(o, Start(), steps);
    forall x | x in s.sent ensures x in s.landed && (s.landed[x] ==> repeatable) {
      var i :| 0 <= i < |s.disk| && s.disk[i].signature == x;
      assert Settled(o, s, s.disk[i]);
    }
  }

  /** A confirmed attempt is being verified, and every return so far was checked. */
  ghost predicate Checked(s: System)
  {
    && (s.phase in {Verifying, Closing} ==> s.memory != [] && Last(s.memory).signature in s.landed && s.landed[Last(s.memory).signature])
    && forall r | r in s.results :: ReturnOk(s, r)
  }

  lemma CheckedLanding(o: Options, s: System, t: Step)
    requires Checked(s) && t.Land?
    ensures Checked(Apply(o, s, t))
  {
    var u := Apply(o, s, t);
    forall r | r in u.results ensures ReturnOk(u, r) { assert ReturnOk(s, r); }
  }

  lemma CheckedCheck(o: Options, s: System, t: Step)
    requires Checked(s) && t.Check?
    ensures Checked(Apply(o, s, t))
  {
    var u := Apply(o, s, t);
    forall r | r in u.results ensures ReturnOk(u, r) {
      if r in s.results { assert ReturnOk(s, r); }
    }
  }

  lemma CheckedStep(o: Options, s: System, t: Step)
    requires Checked(s)
    ensures Checked(Apply(o, s, t))
  {
    if t.Land? { CheckedLanding(o, s, t); }
    else if t.Check? { CheckedCheck(o, s, t); }
    else {
      var u := Apply(o, s, t);
      assert u.results == s.results && u.landed == s.landed;
      forall r | r in u.results ensures ReturnOk(u, r) { assert ReturnOk(s, r); }
    }
  }

  lemma {:induction false} CheckedRun(o: Options, s: System, steps: seq<Step>)
    requires Checked(s)
    ensures Checked(Run(o, s, steps))
    decreases |steps|
  {
    if steps != [] {
      CheckedStep(o, s, steps[0]);
      CheckedRun(o, Apply(o, s, steps[0]), steps[1..]);
    }
  }

  /** Over every run whatsoever, a call that returns saw its check hold last, and a signature it returns succeeded on chain. */
  lemma ReturnsAreChecked(o: Options, steps: seq<Step>)
    ensures var s := Run(o, Start(), steps); forall r | r in s.results :: ReturnOk(s, r)
  {
    CheckedRun(o, Start(), steps);
  }

  lemma {:induction false} RunThen(o: Options, s: System, steps: seq<Step>, t: Step)
    ensures Run(o, s, steps + [t]) == Apply(o, Run(o, s, steps), t)
    decreases |steps|
  {
    if steps == [] {
      assert (steps + [t])[1..] == [];
    } else {
      assert (steps + [t])[1..] == steps[1..] + [t];
      RunThen(o, Apply(o, s, steps[0]), steps[1..], t);
    }
  }

  const RETRYING: Options := Options(false, true)

  lemma Then(steps: seq<Step>, t: Step) returns (longer: seq<Step>)
    ensures Run(RETRYING, Start(), longer) == Apply(RETRYING, Run(RETRYING, Start(), steps), t)
  {
    RunThen(RETRYING, Start(), steps, t);
    longer := steps + [t];
  }

  lemma ReachSigning(before: seq<Step>) returns (steps: seq<Step>)
    requires var s := Run(RETRYING, Start(), before); s.phase.Off? && s.disk == []
    ensures Run(RETRYING, Start(), steps) == Run(RETRYING, Start(), before).(phase := Signing, memory := [], held := false)
  {
    steps := Then(before, Boot);
    steps := Then(steps, Call);
    steps := Then(steps, Check(false));
    steps := Then(steps, Check(false));
  }

  /** With an empty state file a fresh attempt is signed and written, or its write is lost and the call fails. */
  lemma SignOne(before: seq<Step>, signature: Signature, written: bool) returns (steps: seq<Step>)
    requires var s := Run(RETRYING, Start(), before); s.phase.Off? && s.disk == []
    ensures var s, t := Run(RETRYING, Start(), before), Run(RETRYING, Start(), steps); var log := [Attempt(signature, 0)];
      t == s.(phase := if written then Sending else Idle, memory := log, disk := if written then log else [], held := false)
  {
    steps := ReachSigning(before);
    steps := Then(steps, Sign(Attempt(signature, 0)));
    steps := Then(steps, Write(written, written));
  }

  /** The failed call is tried again: the attempt in memory has no status, so it is submitted, and lands; then a crash. */
  lemma RetryAndCrash(before: seq<Step>, signature: Signature) returns (steps: seq<Step>)
    requires Run(RETRYING, Start(), before) == System(Idle, [Attempt(signature, 0)], [], {}, map[], false, [])
    ensures Run(RETRYING, Start(), steps) == System(Off, [Attempt(signature, 0)], [], {signature}, map[signature := true], false, [])
  {
    steps := Then(before, Call);
    steps := Then(steps, Check(false));
    steps := Then(steps, Query(Unknown));
    steps := Then(steps, Height(0));
    steps := Then(steps, Submit(true, true));
    steps := Then(steps, Land(signature, true));
    steps := Then(steps, Crash);
  }

  /** A write is lost, the process tries again and submits, and after a restart nothing remembers that signature. */
  lemma LostWriteSucceedsTwice() returns (steps: seq<Step>)
    ensures !OneSuccess(Run(RETRYING, Start(), steps))
  {
    steps := SignOne([], "a", false);
    steps := RetryAndCrash(steps, "a");
    steps := SignOne(steps, "b", true);
    steps := Then(steps, Submit(true, true));
    steps := Then(steps, Land("b", true));
    var s := Run(RETRYING, Start(), steps);
    assert s.landed["a"] && s.landed["b"];
  }

  /**
   A step that must not repeat succeeds at most once in every run, across any number of crashes and restarts,
   exactly when no caller tries again in a process that holds an attempt its state file does not. Calling again after
   any other failure is safe: an unanswered query, a failed check, an uncertain submission, an unresolved expiry,
   a failed later write, or an attempt write that threw after it took effect.
   */
  lemma AtMostOneSuccessIff(ignoresLostWrites: bool)
    ensures (forall steps :: OneSuccess(Run(Options(false, ignoresLostWrites), Start(), steps))) <==> !ignoresLostWrites
  {
    if ignoresLostWrites {
      var steps := LostWriteSucceedsTwice();
    } else {
      var o := Options(false, false);
      forall steps ensures OneSuccess(Run(o, Start(), steps)) {
        StartOk(o);
        RunKeeps(o, Start(), steps);
        var s := Run(o, Start(), steps);
        forall x, y | x in s.landed && y in s.landed && s.landed[x] && s.landed[y] ensures x == y {
          SuccessIsLast(o, s, x);
          SuccessIsLast(o, s, y);
        }
      }
    }
  }
}
