/** What every run of `create` keeps. The invariant is proved one process and one phase at a
    time; the lemmas at the end say what it means for runs. */
module CreateSafety {
  import opened Wrappers
  import opened CreateProtocol

  // ----- steps of the parent

  lemma BeforeForkKeepsQueue(c: Config, s: State, ok: bool)
    requires ParentQueue(c, s) && Coherent(c, s) && 0 <= ParentRank(s.parent) <= 6
    requires ParentStep(c, s, ok).Some?
    ensures ParentQueue(c, ParentStep(c, s, ok).value)
  {
  }

  lemma BeforeForkKeepsCoherence(c: Config, s: State, ok: bool)
    requires ParentQueue(c, s) && Coherent(c, s) && 0 <= ParentRank(s.parent) <= 6
    requires ParentStep(c, s, ok).Some?
    ensures Coherent(c, ParentStep(c, s, ok).value)
  {
  }

  lemma FirstReadKeepsQueue(c: Config, s: State, ok: bool)
    requires ParentQueue(c, s) && Coherent(c, s) && 7 <= ParentRank(s.parent) <= 9
    requires ParentStep(c, s, ok).Some?
    ensures ParentQueue(c, ParentStep(c, s, ok).value)
  {
  }

  lemma FirstReadKeepsCoherence(c: Config, s: State, ok: bool)
    requires ParentQueue(c, s) && Coherent(c, s) && 7 <= ParentRank(s.parent) <= 9
    requires ParentStep(c, s, ok).Some?
    ensures Coherent(c, ParentStep(c, s, ok).value)
  {
  }

  lemma SecondReadKeepsQueue(c: Config, s: State, ok: bool)
    requires ParentQueue(c, s) && Coherent(c, s) && 10 <= ParentRank(s.parent) <= 15
    requires ParentStep(c, s, ok).Some?
    ensures ParentQueue(c, ParentStep(c, s, ok).value)
  {
  }

  lemma SecondReadKeepsCoherence(c: Config, s: State, ok: bool)
    requires ParentQueue(c, s) && Coherent(c, s) && 10 <= ParentRank(s.parent) <= 15
    requires ParentStep(c, s, ok).Some?
    ensures Coherent(c, ParentStep(c, s, ok).value)
  {
  }

  lemma ReadyReadKeepsQueue(c: Config, s: State, ok: bool)
    requires ParentQueue(c, s) && Coherent(c, s) && 16 <= ParentRank(s.parent) <= 19
    requires ParentStep(c, s, ok).Some?
    ensures ParentQueue(c, ParentStep(c, s, ok).value)
  {
  }

  lemma ReadyReadKeepsCoherence(c: Config, s: State, ok: bool)
    requires ParentQueue(c, s) && Coherent(c, s) && 16 <= ParentRank(s.parent) <= 19
    requires ParentStep(c, s, ok).Some?
    ensures Coherent(c, ParentStep(c, s, ok).value)
  {
  }

  lemma RollbackKeepsQueue(c: Config, s: State, ok: bool)
    requires ParentQueue(c, s) && Coherent(c, s) && 20 <= ParentRank(s.parent) <= 26
    requires ParentStep(c, s, ok).Some?
    ensures ParentQueue(c, ParentStep(c, s, ok).value)
  {
  }

  lemma RollbackKeepsCoherence(c: Config, s: State, ok: bool)
    requires Coherent(c, s) && 20 <= ParentRank(s.parent) <= 26
    requires ParentStep(c, s, ok).Some?
    ensures Coherent(c, ParentStep(c, s, ok).value)
  {
  }

  lemma BeforeForkKeepsResources(c: Config, s: State, ok: bool)
    requires ParentQueue(c, s) && Coherent(c, s) && Resources(c, s) && 0 <= ParentRank(s.parent) <= 5
    requires ParentStep(c, s, ok).Some?
    ensures Resources(c, ParentStep(c, s, ok).value)
  {
  }

  lemma FirstReadKeepsResources(c: Config, s: State, ok: bool)
    requires ParentQueue(c, s) && Coherent(c, s) && Resources(c, s) && 6 <= ParentRank(s.parent) <= 7
    requires ParentStep(c, s, ok).Some?
    ensures Resources(c, ParentStep(c, s, ok).value)
  {
  }

  lemma UpToPidKeepsResources(c: Config, s: State, ok: bool)
    requires ParentQueue(c, s) && Coherent(c, s) && Resources(c, s) && 8 <= ParentRank(s.parent) <= 9
    requires ParentStep(c, s, ok).Some?
    ensures Resources(c, ParentStep(c, s, ok).value)
  {
  }

  lemma PidReadKeepsResources(c: Config, s: State, ok: bool)
    requires ParentQueue(c, s) && Coherent(c, s) && Resources(c, s) && ParentRank(s.parent) == 10
    requires ParentStep(c, s, ok).Some?
    ensures Resources(c, ParentStep(c, s, ok).value)
  {
  }

  lemma AttachKeepsResources(c: Config, s: State, ok: bool)
    requires ParentQueue(c, s) && Coherent(c, s) && Resources(c, s) && 11 <= ParentRank(s.parent) <= 12
    requires ParentStep(c, s, ok).Some?
    ensures Resources(c, ParentStep(c, s, ok).value)
  {
  }

  lemma HooksKeepResources(c: Config, s: State, ok: bool)
    requires Resources(c, s) && Ordered(c, s) && 13 <= ParentRank(s.parent) <= 15
    requires ParentStep(c, s, ok).Some?
    ensures Resources(c, ParentStep(c, s, ok).value)
  {
  }

  lemma ReadyReadKeepsResources(c: Config, s: State, ok: bool)
    requires ParentQueue(c, s) && Coherent(c, s) && Resources(c, s) && ParentRank(s.parent) == 16
    requires ParentStep(c, s, ok).Some?
    ensures Resources(c, ParentStep(c, s, ok).value)
  {
  }

  lemma ReadyKeepsResources(c: Config, s: State, ok: bool)
    requires ParentQueue(c, s) && Coherent(c, s) && Resources(c, s) && ParentRank(s.parent) == 17
    requires ParentStep(c, s, ok).Some?
    ensures Resources(c, ParentStep(c, s, ok).value)
  {
  }

  lemma RecordingKeepsResources(c: Config, s: State, ok: bool)
    requires ParentQueue(c, s) && Coherent(c, s) && Resources(c, s) && 18 <= ParentRank(s.parent) <= 19
    requires ParentStep(c, s, ok).Some?
    ensures Resources(c, ParentStep(c, s, ok).value)
  {
  }

  lemma UnlinkKeepsResources(c: Config, s: State, ok: bool)
    requires ParentQueue(c, s) && Coherent(c, s) && Resources(c, s) && 20 <= ParentRank(s.parent) <= 21
    requires ParentStep(c, s, ok).Some?
    ensures Resources(c, ParentStep(c, s, ok).value)
  {
  }

  lemma TeardownKeepsResources(c: Config, s: State, ok: bool)
    requires ParentQueue(c, s) && Coherent(c, s) && Resources(c, s) && ParentRank(s.parent) == 22
    requires ParentStep(c, s, ok).Some?
    ensures Resources(c, ParentStep(c, s, ok).value)
  {
  }

  lemma DestructionKeepsResources(c: Config, s: State, ok: bool)
    requires ParentQueue(c, s) && Coherent(c, s) && Resources(c, s) && ParentRank(s.parent) == 23
    requires ParentStep(c, s, ok).Some?
    ensures Resources(c, ParentStep(c, s, ok).value)
  {
  }

  lemma RemovalKeepsResources(c: Config, s: State, ok: bool)
    requires ParentQueue(c, s) && Coherent(c, s) && Resources(c, s) && 24 <= ParentRank(s.parent) <= 26
    requires ParentStep(c, s, ok).Some?
    ensures Resources(c, ParentStep(c, s, ok).value)
  {
  }

  lemma UpToPidKeepsOrder(c: Config, s: State, ok: bool)
    requires Coherent(c, s) && Ordered(c, s) && 0 <= ParentRank(s.parent) <= 11
    requires ParentStep(c, s, ok).Some?
    ensures Ordered(c, ParentStep(c, s, ok).value)
  {
  }

  lemma AttachKeepsOrder(c: Config, s: State, ok: bool)
    requires Coherent(c, s) && Ordered(c, s) && ParentRank(s.parent) == 12
    requires ParentStep(c, s, ok).Some?
    ensures Ordered(c, ParentStep(c, s, ok).value)
  {
  }

  lemma HooksKeepOrder(c: Config, s: State, ok: bool)
    requires Coherent(c, s) && Ordered(c, s) && 13 <= ParentRank(s.parent) <= 15
    requires ParentStep(c, s, ok).Some?
    ensures Ordered(c, ParentStep(c, s, ok).value)
  {
  }

  lemma RecordingKeepsOrder(c: Config, s: State, ok: bool)
    requires ParentQueue(c, s) && Coherent(c, s) && Ordered(c, s) && 16 <= ParentRank(s.parent) <= 19
    requires ParentStep(c, s, ok).Some?
    ensures Ordered(c, ParentStep(c, s, ok).value)
  {
  }

  lemma RollbackKeepsOrder(c: Config, s: State, ok: bool)
    requires Coherent(c, s) && Ordered(c, s) && 20 <= ParentRank(s.parent) <= 26
    requires ParentStep(c, s, ok).Some?
    ensures Ordered(c, ParentStep(c, s, ok).value)
  {
  }

  lemma ParentKeepsQueue(c: Config, s: State, ok: bool)
    requires ParentQueue(c, s) && Coherent(c, s) && ParentStep(c, s, ok).Some?
    ensures ParentQueue(c, ParentStep(c, s, ok).value)
  {
    var rank := ParentRank(s.parent);
    if rank <= 6 { BeforeForkKeepsQueue(c, s, ok); }
    else if rank <= 9 { FirstReadKeepsQueue(c, s, ok); }
    else if rank <= 15 { SecondReadKeepsQueue(c, s, ok); }
    else if rank <= 19 { ReadyReadKeepsQueue(c, s, ok); }
    else { RollbackKeepsQueue(c, s, ok); }
  }

  lemma ParentKeepsCoherence(c: Config, s: State, ok: bool)
    requires ParentQueue(c, s) && Coherent(c, s) && ParentStep(c, s, ok).Some?
    ensures Coherent(c, ParentStep(c, s, ok).value)
  {
    var rank := ParentRank(s.parent);
    if rank <= 6 { BeforeForkKeepsCoherence(c, s, ok); }
    else if rank <= 9 { FirstReadKeepsCoherence(c, s, ok); }
    else if rank <= 15 { SecondReadKeepsCoherence(c, s, ok); }
    else if rank <= 19 { ReadyReadKeepsCoherence(c, s, ok); }
    else { RollbackKeepsCoherence(c, s, ok); }
  }

  lemma ParentKeepsResources(c: Config, s: State, ok: bool)
    requires Inv(c, s) && ParentStep(c, s, ok).Some?
    ensures Resources(c, ParentStep(c, s, ok).value)
  {
    var rank := ParentRank(s.parent);
    if rank <= 5 { BeforeForkKeepsResources(c, s, ok); }
    else if rank <= 7 { FirstReadKeepsResources(c, s, ok); }
    else if rank <= 9 { UpToPidKeepsResources(c, s, ok); }
    else if rank <= 10 { PidReadKeepsResources(c, s, ok); }
    else if rank <= 12 { AttachKeepsResources(c, s, ok); }
    else if rank <= 15 { HooksKeepResources(c, s, ok); }
    else if rank <= 16 { ReadyReadKeepsResources(c, s, ok); }
    else if rank <= 17 { ReadyKeepsResources(c, s, ok); }
    else if rank <= 19 { RecordingKeepsResources(c, s, ok); }
    else if rank <= 21 { UnlinkKeepsResources(c, s, ok); }
    else if rank <= 22 { TeardownKeepsResources(c, s, ok); }
    else if rank == 23 { DestructionKeepsResources(c, s, ok); }
    else { RemovalKeepsResources(c, s, ok); }
  }

  lemma ParentKeepsOrder(c: Config, s: State, ok: bool)
    requires ParentQueue(c, s) && Coherent(c, s) && Ordered(c, s) && ParentStep(c, s, ok).Some?
    ensures Ordered(c, ParentStep(c, s, ok).value)
  {
    var rank := ParentRank(s.parent);
    if rank <= 11 { UpToPidKeepsOrder(c, s, ok); }
    else if rank == 12 { AttachKeepsOrder(c, s, ok); }
    else if rank <= 15 { HooksKeepOrder(c, s, ok); }
    else if rank <= 19 { RecordingKeepsOrder(c, s, ok); }
    else { RollbackKeepsOrder(c, s, ok); }
  }

  lemma ParentKeepsInv(c: Config, s: State, ok: bool)
    requires Inv(c, s) && ParentStep(c, s, ok).Some?
    ensures Inv(c, ParentStep(c, s, ok).value)
  {
    ParentKeepsQueue(c, s, ok);
    ParentKeepsCoherence(c, s, ok);
    ParentKeepsResources(c, s, ok);
    ParentKeepsOrder(c, s, ok);
    ParentKeepsDone(c, s, ok);
  }

  lemma ParentKeepsDone(c: Config, s: State, ok: bool)
    requires Coherent(c, s) && Done(c, s) && ParentStep(c, s, ok).Some?
    ensures Done(c, ParentStep(c, s, ok).value)
  {
  }

  // ----- steps of the intermediate

  lemma MiddleKeepsQueue(c: Config, s: State, ok: bool)
    requires ParentQueue(c, s) && Coherent(c, s) && MiddleStep(c, s, ok).Some?
    ensures ParentQueue(c, MiddleStep(c, s, ok).value)
  {
  }

  lemma MiddleKeepsCoherence(c: Config, s: State, ok: bool)
    requires ParentQueue(c, s) && Coherent(c, s) && MiddleStep(c, s, ok).Some?
    ensures Coherent(c, MiddleStep(c, s, ok).value)
  {
  }

  lemma MiddleKeepsResources(c: Config, s: State, ok: bool)
    requires ParentQueue(c, s) && Coherent(c, s) && Resources(c, s) && MiddleStep(c, s, ok).Some?
    ensures Resources(c, MiddleStep(c, s, ok).value)
  {
  }

  lemma MiddleKeepsOrder(c: Config, s: State, ok: bool)
    requires Inv(c, s) && MiddleStep(c, s, ok).Some?
    ensures Ordered(c, MiddleStep(c, s, ok).value)
  {
  }

  lemma MiddleKeepsDone(c: Config, s: State, ok: bool)
    requires Coherent(c, s) && Done(c, s) && MiddleStep(c, s, ok).Some?
    ensures Done(c, MiddleStep(c, s, ok).value)
  {
  }

  // ----- steps of the container init

  lemma InitReadKeepsQueue(c: Config, s: State, ok: bool)
    requires ParentQueue(c, s) && Coherent(c, s) && 0 <= InitRank(s.init) <= 1
    requires InitStep(c, s, ok).Some?
    ensures ParentQueue(c, InitStep(c, s, ok).value)
  {
  }

  lemma InitReadKeepsCoherence(c: Config, s: State, ok: bool)
    requires ParentQueue(c, s) && Coherent(c, s) && 0 <= InitRank(s.init) <= 1
    requires InitStep(c, s, ok).Some?
    ensures Coherent(c, InitStep(c, s, ok).value)
  {
  }

  lemma InitWorkKeepsQueue(c: Config, s: State, ok: bool)
    requires ParentQueue(c, s) && Coherent(c, s) && 2 <= InitRank(s.init) <= 7
    requires InitStep(c, s, ok).Some?
    ensures ParentQueue(c, InitStep(c, s, ok).value)
  {
  }

  lemma InitWorkKeepsCoherence(c: Config, s: State, ok: bool)
    requires ParentQueue(c, s) && Coherent(c, s) && 2 <= InitRank(s.init) <= 7
    requires InitStep(c, s, ok).Some?
    ensures Coherent(c, InitStep(c, s, ok).value)
  {
  }

  lemma InitParkedKeepsQueue(c: Config, s: State, ok: bool)
    requires ParentQueue(c, s) && Coherent(c, s) && 8 <= InitRank(s.init) <= 11
    requires InitStep(c, s, ok).Some?
    ensures ParentQueue(c, InitStep(c, s, ok).value)
  {
  }

  lemma InitParkedKeepsCoherence(c: Config, s: State, ok: bool)
    requires ParentQueue(c, s) && Coherent(c, s) && 8 <= InitRank(s.init) <= 11
    requires InitStep(c, s, ok).Some?
    ensures Coherent(c, InitStep(c, s, ok).value)
  {
  }

  lemma InitFailureKeepsQueue(c: Config, s: State, ok: bool)
    requires ParentQueue(c, s) && Coherent(c, s) && 12 <= InitRank(s.init) <= 15
    requires InitStep(c, s, ok).Some?
    ensures ParentQueue(c, InitStep(c, s, ok).value)
  {
  }

  lemma InitFailureKeepsCoherence(c: Config, s: State, ok: bool)
    requires ParentQueue(c, s) && Coherent(c, s) && 12 <= InitRank(s.init) <= 15
    requires InitStep(c, s, ok).Some?
    ensures Coherent(c, InitStep(c, s, ok).value)
  {
  }

  /** As far as the resources go, the init matters by being alive and by having logged something. */
  lemma ResourcesOfTheSame(c: Config, s: State, t: State)
    requires Resources(c, s)
    requires t.parent == s.parent && t.leaf == s.leaf && t.disk == s.disk && t.around == s.around
    requires t.past.applied == s.past.applied && t.past.tookPid == s.past.tookPid
    requires t.past.log != [] <==> s.past.log != []
    requires InitAlive(t) <==> InitAlive(s)
    ensures Resources(c, t)
  {
  }

  lemma DeathKeepsResources(c: Config, s: State)
    requires Resources(c, s)
    ensures Resources(c, InitDies(s))
  {
  }

  lemma InitKeepsResources(c: Config, s: State, ok: bool)
    requires ParentQueue(c, s) && Coherent(c, s) && Resources(c, s) && InitStep(c, s, ok).Some?
    ensures Resources(c, InitStep(c, s, ok).value)
  {
    var t := InitStep(c, s, ok).value;
    if t == InitDies(s) {
      DeathKeepsResources(c, s);
    } else {
      ResourcesOfTheSame(c, s, t);
    }
  }

  lemma InitReadKeepsOrder(c: Config, s: State, ok: bool)
    requires Coherent(c, s) && Ordered(c, s) && 0 <= InitRank(s.init) <= 2
    requires InitStep(c, s, ok).Some?
    ensures Ordered(c, InitStep(c, s, ok).value)
  {
  }

  lemma InitIsolationKeepsOrder(c: Config, s: State, ok: bool)
    requires Coherent(c, s) && Ordered(c, s) && 3 <= InitRank(s.init) <= 4
    requires InitStep(c, s, ok).Some?
    ensures Ordered(c, InitStep(c, s, ok).value)
  {
  }

  lemma InitSecurityKeepsOrder(c: Config, s: State, ok: bool)
    requires Coherent(c, s) && Ordered(c, s) && 5 <= InitRank(s.init) <= 7
    requires InitStep(c, s, ok).Some?
    ensures Ordered(c, InitStep(c, s, ok).value)
  {
  }

  lemma InitParkedKeepsOrder(c: Config, s: State, ok: bool)
    requires Coherent(c, s) && Ordered(c, s) && 8 <= InitRank(s.init) <= 11
    requires InitStep(c, s, ok).Some?
    ensures Ordered(c, InitStep(c, s, ok).value)
  {
  }

  lemma InitFailureKeepsOrder(c: Config, s: State, ok: bool)
    requires Coherent(c, s) && Ordered(c, s) && 12 <= InitRank(s.init) <= 15
    requires InitStep(c, s, ok).Some?
    ensures Ordered(c, InitStep(c, s, ok).value)
  {
  }

  lemma InitKeepsInv(c: Config, s: State, ok: bool)
    requires Inv(c, s) && InitStep(c, s, ok).Some?
    ensures Inv(c, InitStep(c, s, ok).value)
  {
    var rank := InitRank(s.init);
    if rank <= 1 { InitReadKeepsQueue(c, s, ok); InitReadKeepsCoherence(c, s, ok); }
    else if rank <= 7 { InitWorkKeepsQueue(c, s, ok); InitWorkKeepsCoherence(c, s, ok); }
    else if rank <= 11 { InitParkedKeepsQueue(c, s, ok); InitParkedKeepsCoherence(c, s, ok); }
    else { InitFailureKeepsQueue(c, s, ok); InitFailureKeepsCoherence(c, s, ok); }
    InitKeepsResources(c, s, ok);
    if rank <= 2 { InitReadKeepsOrder(c, s, ok); }
    else if rank <= 4 { InitIsolationKeepsOrder(c, s, ok); }
    else if rank <= 7 { InitSecurityKeepsOrder(c, s, ok); }
    else if rank <= 11 { InitParkedKeepsOrder(c, s, ok); }
    else { InitFailureKeepsOrder(c, s, ok); }
    InitKeepsDone(c, s, ok);
  }

  lemma InitKeepsDone(c: Config, s: State, ok: bool)
    requires Done(c, s) && InitStep(c, s, ok).Some?
    ensures Done(c, InitStep(c, s, ok).value)
  {
    assert InitStep(c, s, ok).value.deeds == s.deeds;
  }

  // ----- steps from outside

  lemma KillMiddleKeepsInv(c: Config, s: State)
    requires Inv(c, s) && Step(c, s, KillMiddle).Some?
    ensures Inv(c, Step(c, s, KillMiddle).value)
  {
  }

  lemma KillInitKeepsInv(c: Config, s: State)
    requires Inv(c, s) && Step(c, s, KillInit).Some?
    ensures Inv(c, Step(c, s, KillInit).value)
  {
    DeathKeepsWire(c, s);
    DeathKeepsResources(c, s);
    DeathKeepsOrder(c, s);
  }

  lemma DeathKeepsWire(c: Config, s: State)
    requires ParentQueue(c, s) && Coherent(c, s) && InitAlive(s)
    ensures ParentQueue(c, InitDies(s)) && Coherent(c, InitDies(s))
  {
  }

  lemma DeathKeepsOrder(c: Config, s: State)
    requires Ordered(c, s)
    ensures Ordered(c, InitDies(s))
  {
  }

  lemma ReleaseKeepsInv(c: Config, s: State)
    requires Inv(c, s) && Step(c, s, Release).Some?
    ensures Inv(c, Step(c, s, Release).value)
  {
  }

  // ----- runs

  lemma StepKeepsInv(c: Config, s: State, choice: Choice)
    requires Inv(c, s) && Step(c, s, choice).Some?
    ensures Inv(c, Step(c, s, choice).value)
  {
    match choice
    case Parent(ok) => ParentKeepsInv(c, s, ok);
    case Middle(ok) =>
      MiddleKeepsQueue(c, s, ok);
      MiddleKeepsCoherence(c, s, ok);
      MiddleKeepsResources(c, s, ok);
      MiddleKeepsOrder(c, s, ok);
      MiddleKeepsDone(c, s, ok);
    case Init(ok) => InitKeepsInv(c, s, ok);
    case KillMiddle => KillMiddleKeepsInv(c, s);
    case KillInit => KillInitKeepsInv(c, s);
    case Release => ReleaseKeepsInv(c, s);
  }

  /** Every state of every run satisfies the invariant. */
  lemma {:induction false} RunKeepsInv(c: Config, choices: seq<Choice>)
    requires Run(c, choices).Some?
    ensures Inv(c, Run(c, choices).value)
  {
    if choices != [] {
      var before := choices[..|choices| - 1];
      RunKeepsInv(c, before);
      StepKeepsInv(c, Run(c, before).value, choices[|choices| - 1]);
    }
  }
}
