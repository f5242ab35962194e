/** What a call of a resumable step does with the last attempt on record, for each truthful answer of the chain. */
module ResumableLaws {
  import opened Prelude
  import opened ResumableStep

  lemma Then(o: Options, s: System, steps: seq<Step>, t: Step) returns (longer: seq<Step>)
    ensures Run(o, s, longer) == Apply(o, Run(o, s, steps), t)
  {
    RunThen(o, s, steps, t);
    longer := steps + [t];
  }

  /** Between calls, with the state file up to date. */
  predicate AtRest(s: System) { s.phase.Idle? && s.memory == s.disk }

  /** A call whose check holds at once returns without touching anything. */
  lemma DoneIsDone(o: Options, s: System) returns (steps: seq<Step>)
    requires AtRest(s)
    ensures Run(o, s, steps) == s.(held := true, results := s.results + [Return(None, true)])
  {
    steps := Then(o, s, [], Call);
    steps := Then(o, s, steps, Check(true));
  }

  lemma Inspects(o: Options, s: System) returns (steps: seq<Step>)
    requires AtRest(s) && s.disk != []
    ensures Run(o, s, steps) == s.(phase := Inspecting, held := false)
  {
    steps := Then(o, s, [], Call);
    steps := Then(o, s, steps, Check(false));
  }

  /** A confirmed last attempt whose check holds is returned, and nothing is signed or sent. */
  lemma ConfirmedIsReturned(o: Options, s: System) returns (steps: seq<Step>)
    requires AtRest(s) && s.disk != [] && Truthful(s, Last(s.disk).signature, Confirmed)
    ensures Run(o, s, steps) == s.(held := true, results := s.results + [Return(Some(Last(s.disk).signature), true)])
  {
    steps := Inspects(o, s);
    steps := Then(o, s, steps, Query(Confirmed));
    steps := Then(o, s, steps, Check(true));
  }

  /** A confirmed last attempt whose check fails ends the call, or lets a step that may repeat go on to sign again. */
  lemma ConfirmedButAbsent(o: Options, s: System) returns (steps: seq<Step>)
    requires AtRest(s) && s.disk != [] && Truthful(s, Last(s.disk).signature, Confirmed)
    ensures Run(o, s, steps) == s.(phase := if o.repeatable then Second else Idle, held := false)
  {
    steps := Inspects(o, s);
    steps := Then(o, s, steps, Query(Confirmed));
    steps := Then(o, s, steps, Check(false));
  }

  /** An attempt with no outcome yet and not expired is sent again as it is. */
  lemma PendingIsResent(o: Options, s: System, height: int) returns (steps: seq<Step>)
    requires AtRest(s) && s.disk != [] && height <= Last(s.disk).lastValidBlockHeight
    ensures Run(o, s, steps) == s.(phase := Recording, held := false, sent := s.sent + {Last(s.disk).signature})
  {
    steps := Inspects(o, s);
    steps := Then(o, s, steps, Query(Unknown));
    steps := Then(o, s, steps, Height(height));
    steps := Then(o, s, steps, Submit(true, true));
  }

  /** An expired attempt that still has no outcome ends the call: nothing is signed and nothing is sent. */
  lemma ExpiredUnknownStops(o: Options, s: System, height: int) returns (steps: seq<Step>)
    requires AtRest(s) && s.disk != [] && height > Last(s.disk).lastValidBlockHeight
    ensures Run(o, s, steps) == s.(held := false)
  {
    steps := Inspects(o, s);
    steps := Then(o, s, steps, Query(Unknown));
    steps := Then(o, s, steps, Height(height));
    steps := Then(o, s, steps, Query(Unknown));
  }

  /** A failed last attempt leads to the second check, as does an empty record. */
  lemma ReachesSecond(o: Options, s: System) returns (steps: seq<Step>)
    requires AtRest(s) && (s.disk == [] || Truthful(s, Last(s.disk).signature, Errored))
    ensures Run(o, s, steps) == s.(phase := Second, held := false)
  {
    if s.disk == [] {
      steps := Then(o, s, [], Call);
      steps := Then(o, s, steps, Check(false));
    } else {
      steps := Inspects(o, s);
      steps := Then(o, s, steps, Query(Errored));
    }
  }

  /** If the check holds by then, the call returns without signing. */
  lemma LateSuccessIsNoticed(o: Options, s: System) returns (steps: seq<Step>)
    requires AtRest(s) && (s.disk == [] || Truthful(s, Last(s.disk).signature, Errored))
    ensures Run(o, s, steps) == s.(held := true, results := s.results + [Return(None, true)])
  {
    steps := ReachesSecond(o, s);
    steps := Then(o, s, steps, Check(true));
  }

  /** And from there, the check still failing, one new attempt is recorded and sent, in this order. */
  lemma FailedIsReplaced(o: Options, s: System, a: Attempt) returns (steps: seq<Step>)
    requires AtRest(s) && (s.disk == [] || Truthful(s, Last(s.disk).signature, Errored))
    ensures var log := s.disk + [a];
      Run(o, s, steps) == s.(phase := Recording, held := false, memory := log, disk := log, sent := s.sent + {a.signature})
  {
    steps := ReachesSecond(o, s);
    steps := Then(o, s, steps, Check(false));
    steps := Then(o, s, steps, Sign(a));
    steps := Then(o, s, steps, Write(true, true));
    assert Last(s.disk + [a]) == a;
    steps := Then(o, s, steps, Submit(true, true));
  }

  /** A sent attempt that succeeds and whose check holds is returned. */
  lemma SuccessIsReturned(o: Options, s: System) returns (steps: seq<Step>)
    requires s.phase.Recording? && s.memory != [] && s.disk == s.memory && Truthful(s, Last(s.memory).signature, Confirmed)
    ensures Run(o, s, steps) == s.(phase := Idle, held := true, results := s.results + [Return(Some(Last(s.memory).signature), true)])
  {
    steps := Then(o, s, [], Write(true, true));
    steps := Then(o, s, steps, Confirm);
    steps := Then(o, s, steps, Check(true));
  }

  /** Sent signatures are those of the last attempt in memory, and only a successful one lands as such. */
  lemma OnlyLastIsSent(o: Options, s: System, t: Step)
    ensures var u := Apply(o, s, t);
      && (u.sent != s.sent ==> t.Submit? && s.phase.Sending? && s.memory != [] && u.sent == s.sent + {Last(s.memory).signature})
      && (u.landed != s.landed ==> t.Land? && t.signature in s.sent && t.signature !in s.landed && u.landed == s.landed[t.signature := t.success])
      && (u.memory != s.memory ==> (t.Boot? && u.memory == s.disk) || (t.Sign? && s.phase.Signing? && u.memory == s.memory + [t.attempt]))
      && (u.disk != s.disk ==> t.Write? && t.commits && u.disk == s.memory)
  {
  }
}
