/** What a run of `create` can end in: termination, the promises of success and of failure,
    and the two ways in which it can hang. */
module CreateOutcome {
  import opened Wrappers
  import opened CreateProtocol
  import opened CreateSafety

  // ----- packets

  /** No process ever reaches an arm for an unexpected message. */
  lemma NoUnexpectedMessage(c: Config, choices: seq<Choice>)
    requires Run(c, choices).Some?
    ensures var s := Run(c, choices).value;
            !s.parent.Confused? && !s.middle.Confused? && !s.init.Confused?
  {
    RunKeepsInv(c, choices);
  }

  /** Every packet is read by the process it was meant for, the two children never wait on the
      shared end together, and nothing the init sends is in the channel before the parent has
      read InitPid. */
  lemma PacketsReachTheirReader(c: Config, choices: seq<Choice>, ok: bool)
    requires Run(c, choices).Some?
    ensures var s := Run(c, choices).value;
            && !(s.middle.AwaitMapping? && InitAlive(s))
            && (s.middle.AwaitMapping? && ChildRead(s, ok).Takes? ==>
                  ChildRead(s, ok).value == UserMappingDone)
            && (s.init.AwaitAttach? && ChildRead(s, ok).Takes? ==>
                  ChildRead(s, ok).value == CgroupApplied(c.initPid))
            && (forall p :: p in s.wire.toParent && p.sender.FromInit? ==> s.past.tookPid)
            && (ParentReads(s.parent) && s.wire.toParent != [] ==>
                  s.wire.toParent[0].sender == if s.parent.AwaitReady? then FromInit else FromMiddle)
  {
    RunKeepsInv(c, choices);
  }

  // ----- the order of the steps

  /** The logged steps of any run are a prefix of the script. */
  lemma StepsFollowTheScript(c: Config, choices: seq<Choice>)
    requires Run(c, choices).Some?
    ensures Run(c, choices).value.past.log <= Script(c)
  {
    RunKeepsInv(c, choices);
  }

  /** So a step is logged only after every earlier step of the script. */
  lemma EarlierStepsCameFirst(c: Config, choices: seq<Choice>, i: nat, j: nat)
    requires Run(c, choices).Some?
    requires i < j < |Script(c)|
    ensures var log := Run(c, choices).value.past.log;
            Script(c)[j] in log ==> |log| > j && log[i] == Script(c)[i]
  {
    StepsFollowTheScript(c, choices);
    ScriptHasNoRepeats(c);
    var log := Run(c, choices).value.past.log;
    if Script(c)[j] in log {
      var k :| 0 <= k < |log| && log[k] == Script(c)[j];
      assert Script(c)[k] == log[k];
      assert k == j;
    }
  }

  ghost predicate Precedes(log: seq<Event>, earlier: Event, later: Event) {
    forall i :: 0 <= i < |log| && log[i] == later ==> earlier in log[..i]
  }

  /** What that means event by event: every runtime hook has succeeded before any step inside, the cgroup
      namespace is unshared by a member, createContainer hooks see the mounted rootfs from outside it, and
      the program is the last. */
  lemma PromisedOrder(c: Config, choices: seq<Choice>)
    requires Run(c, choices).Some?
    ensures var log := Run(c, choices).value.past.log;
            && Precedes(log, Attached, PrestartHooksRan)
            && Precedes(log, PrestartHooksRan, CreateRuntimeHooksRan)
            && Precedes(log, CreateRuntimeHooksRan, CgroupUnshared)
            && Precedes(log, CreateRuntimeHooksRan, RootfsMounted)
            && Precedes(log, CreateRuntimeHooksRan, CreateContainerHooksRan)
            && (c.cgroupNamespace ==> Precedes(log, CgroupUnshared, CreateContainerHooksRan))
            && (c.mountNamespace ==> Precedes(log, RootfsMounted, CreateContainerHooksRan))
            && Precedes(log, CreateContainerHooksRan, RootPivoted)
            && Precedes(log, CreateContainerHooksRan, ReadySent)
            && (c.mountNamespace ==> Precedes(log, RootPivoted, ReadySent))
            && Precedes(log, ReadySent, StartContainerHooksRan)
            && Precedes(log, StartContainerHooksRan, ProgramExecuted)
  {
    StepsFollowTheScript(c, choices);
    var log, n := Run(c, choices).value.past.log, |Script(c)|;
    assert log == Script(c)[..|log|];
    forall earlier, later | Precedes(Script(c), earlier, later)
      ensures Precedes(log, earlier, later)
    {
      PrefixPrecedes(log, Script(c), earlier, later);
    }
    ScriptPrecedes(c);
  }

  lemma PrefixPrecedes(log: seq<Event>, whole: seq<Event>, earlier: Event, later: Event)
    requires log <= whole && Precedes(whole, earlier, later)
    ensures Precedes(log, earlier, later)
  {
    forall i | 0 <= i < |log| && log[i] == later ensures earlier in log[..i] {
      assert whole[i] == later && whole[..i] == log[..i];
    }
  }

  /** One event of the script, by its place. */
  lemma PrecedesAt(script: seq<Event>, i: nat, j: nat)
    requires i < j < |script|
    requires forall a, b :: 0 <= a < b < |script| ==> script[a] != script[b]
    ensures Precedes(script, script[i], script[j])
  {
    forall k | 0 <= k < |script| && script[k] == script[j] ensures script[i] in script[..k] {
      assert k == j;
      assert script[..k][i] == script[i];
    }
  }

  lemma ScriptPrecedes(c: Config)
    ensures var s := Script(c);
            && Precedes(s, Attached, PrestartHooksRan)
            && Precedes(s, PrestartHooksRan, CreateRuntimeHooksRan)
            && Precedes(s, CreateRuntimeHooksRan, CgroupUnshared)
            && Precedes(s, CreateRuntimeHooksRan, RootfsMounted)
            && Precedes(s, CreateRuntimeHooksRan, CreateContainerHooksRan)
            && (c.cgroupNamespace ==> Precedes(s, CgroupUnshared, CreateContainerHooksRan))
            && (c.mountNamespace ==> Precedes(s, RootfsMounted, CreateContainerHooksRan))
            && Precedes(s, CreateContainerHooksRan, RootPivoted)
            && Precedes(s, CreateContainerHooksRan, ReadySent)
            && (c.mountNamespace ==> Precedes(s, RootPivoted, ReadySent))
            && Precedes(s, ReadySent, StartContainerHooksRan)
            && Precedes(s, StartContainerHooksRan, ProgramExecuted)
  {
    OuterPrecedes(c);
    CgroupPrecedes(c);
    MountPrecedes(c);
  }

  /** Where the script has which event. */
  lemma ScriptPlaces(c: Config)
    ensures var s, x, m := Script(c), if c.cgroupNamespace then 1 else 0, if c.mountNamespace then 1 else 0;
            && |s| == 7 + x + 2 * m
            && s[0] == Attached && s[1] == PrestartHooksRan && s[2] == CreateRuntimeHooksRan
            && (c.cgroupNamespace ==> s[3] == CgroupUnshared)
            && (c.mountNamespace ==> s[3 + x] == RootfsMounted && s[4 + x + m] == RootPivoted)
            && s[3 + x + m] == CreateContainerHooksRan && s[4 + x + 2 * m] == ReadySent
            && s[5 + x + 2 * m] == StartContainerHooksRan && s[6 + x + 2 * m] == ProgramExecuted
  {
  }

  lemma OuterPrecedes(c: Config)
    ensures var s := Script(c);
            && Precedes(s, Attached, PrestartHooksRan)
            && Precedes(s, PrestartHooksRan, CreateRuntimeHooksRan)
            && Precedes(s, CreateRuntimeHooksRan, CreateContainerHooksRan)
            && Precedes(s, CreateContainerHooksRan, ReadySent)
            && Precedes(s, ReadySent, StartContainerHooksRan)
            && Precedes(s, StartContainerHooksRan, ProgramExecuted)
  {
    var s, x, m := Script(c), if c.cgroupNamespace then 1 else 0, if c.mountNamespace then 1 else 0;
    ScriptPlaces(c);
    ScriptHasNoRepeats(c);
    PrecedesAt(s, 0, 1);
    PrecedesAt(s, 1, 2);
    PrecedesAt(s, 2, 3 + x + m);
    PrecedesAt(s, 3 + x + m, 4 + x + 2 * m);
    PrecedesAt(s, 4 + x + 2 * m, 5 + x + 2 * m);
    PrecedesAt(s, 5 + x + 2 * m, 6 + x + 2 * m);
  }

  lemma CgroupPrecedes(c: Config)
    ensures Precedes(Script(c), CreateRuntimeHooksRan, CgroupUnshared)
    ensures c.cgroupNamespace ==> Precedes(Script(c), CgroupUnshared, CreateContainerHooksRan)
  {
    ScriptPlaces(c);
    ScriptHasNoRepeats(c);
    if c.cgroupNamespace {
      PrecedesAt(Script(c), 2, 3);
      PrecedesAt(Script(c), 3, 4 + if c.mountNamespace then 1 else 0);
    } else {
      assert CgroupUnshared !in Script(c);
    }
  }

  lemma MountPrecedes(c: Config)
    ensures Precedes(Script(c), CreateRuntimeHooksRan, RootfsMounted)
    ensures Precedes(Script(c), CreateContainerHooksRan, RootPivoted)
    ensures c.mountNamespace ==> Precedes(Script(c), RootfsMounted, CreateContainerHooksRan)
    ensures c.mountNamespace ==> Precedes(Script(c), RootPivoted, ReadySent)
  {
    var s, x := Script(c), if c.cgroupNamespace then 1 else 0;
    ScriptPlaces(c);
    ScriptHasNoRepeats(c);
    if c.mountNamespace {
      PrecedesAt(s, 2, 3 + x);
      PrecedesAt(s, 3 + x, 4 + x);
      PrecedesAt(s, 4 + x, 5 + x);
      PrecedesAt(s, 5 + x, 6 + x);
    } else {
      assert RootfsMounted !in s && RootPivoted !in s;
    }
  }

  lemma ScriptHasNoRepeats(c: Config)
    ensures forall i, j :: 0 <= i < j < |Script(c)| ==> Script(c)[i] != Script(c)[j]
  {
  }

  // ----- termination

  /** How far the processes have come; every step adds to it. */
  function Progress(s: State): nat {
    ParentRank(s.parent) + MiddleRank(s.middle) + InitRank(s.init) + if s.past.released then 1 else 0
  }

  lemma ParentMovesForward(s: State, ok: bool)
    requires ParentGoes(s, ok).Some?
    ensures ParentRank(ParentGoes(s, ok).value) > ParentRank(s.parent)
  {
  }

  lemma ChildrenMoveForward(c: Config, s: State, ok: bool)
    ensures MiddleGoes(c, s, ok).Some? ==>
              MiddleRank(MiddleGoes(c, s, ok).value) > MiddleRank(s.middle)
    ensures InitGoes(c, s, ok).Some? ==> InitRank(InitGoes(c, s, ok).value) > InitRank(s.init)
  {
  }

  lemma StepAdvances(c: Config, s: State, choice: Choice)
    requires Inv(c, s) && Step(c, s, choice).Some?
    ensures Progress(Step(c, s, choice).value) > Progress(s)
  {
    match choice
    case Parent(ok) => ParentAdvances(c, s, ok);
    case Middle(ok) => MiddleAdvances(c, s, ok);
    case Init(ok) => InitAdvances(c, s, ok);
    case _ =>
  }

  lemma ParentAdvances(c: Config, s: State, ok: bool)
    requires Coherent(c, s) && ParentStep(c, s, ok).Some?
    ensures Progress(ParentStep(c, s, ok).value) > Progress(s)
  {
    ParentMovesForward(s, ok);
  }

  lemma MiddleAdvances(c: Config, s: State, ok: bool)
    requires Coherent(c, s) && MiddleStep(c, s, ok).Some?
    ensures Progress(MiddleStep(c, s, ok).value) > Progress(s)
  {
    ChildrenMoveForward(c, s, ok);
  }

  lemma InitAdvances(c: Config, s: State, ok: bool)
    requires Coherent(c, s) && InitStep(c, s, ok).Some?
    ensures Progress(InitStep(c, s, ok).value) > Progress(s)
  {
    ChildrenMoveForward(c, s, ok);
  }

  /** No run is longer than 51 steps, whatever fails and whoever is killed. */
  lemma RunsAreShort(c: Config, choices: seq<Choice>)
    requires Run(c, choices).Some?
    ensures |choices| <= Progress(Run(c, choices).value) <= 51
  {
    ProgressCountsSteps(c, choices);
    RunKeepsInv(c, choices);
    ProgressIsBounded(c, Run(c, choices).value);
  }

  lemma ProgressIsBounded(c: Config, s: State)
    requires Coherent(c, s)
    ensures Progress(s) <= 51
  {
    assert ParentRank(s.parent) <= 26 && MiddleRank(s.middle) <= 10 && InitRank(s.init) <= 15;
  }

  lemma {:induction false} ProgressCountsSteps(c: Config, choices: seq<Choice>)
    requires Run(c, choices).Some?
    ensures |choices| <= Progress(Run(c, choices).value)
  {
    if choices != [] {
      var before := choices[..|choices| - 1];
      ProgressCountsSteps(c, before);
      RunKeepsInv(c, before);
      StepAdvances(c, Run(c, before).value, choices[|choices| - 1]);
    }
  }

  // ----- where a run can stop

  /** The intermediate died after forking the init without telling the parent: the init holds the
      child end open and the parent the other, and each waits for the other to send. */
  predicate Orphaned(s: State) {
    && (s.parent.AwaitFirst? || s.parent.AwaitPid?)
    && s.wire.toParent == []
    && s.middle.Gone?
    && s.init.AwaitAttach?
    && s.wire.toChildren == []
  }

  /** The init was attached to a frozen leaf: it never reads CgroupApplied, and the parent waits for
      InitReady. */
  predicate Stalled(c: Config, s: State) {
    Held(s) && s.init.AwaitAttach? && s.parent.AwaitReady?
  }

  lemma StoppedParentHangs(c: Config, s: State)
    requires Inv(c, s) && Waits(c, s) && Quiescent(c, s) && !s.parent.Returned?
    ensures Orphaned(s) || Stalled(c, s)
  {
    assert ParentGoes(s, true).None?;
    assert MiddleGoes(c, s, true).None?;
    assert !s.leaf.killed || !InitAlive(s);
    if !Held(s) {
      assert InitGoes(c, s, true).None?;
    }
  }

  lemma HungRunsAreStopped(c: Config, s: State)
    requires Inv(c, s) && (Orphaned(s) || Stalled(c, s))
    ensures Quiescent(c, s) && !s.parent.Returned?
  {
  }

  /** A run has stopped before the parent returned if and only if it is orphaned or stalled. */
  lemma RunsHangExactly(c: Config, choices: seq<Choice>)
    requires Run(c, choices).Some?
    ensures var s := Run(c, choices).value;
            Quiescent(c, s) && !s.parent.Returned? <==> Orphaned(s) || Stalled(c, s)
  {
    RunKeepsInv(c, choices);
    FrozenInitWaits(c, choices);
    var s := Run(c, choices).value;
    if Quiescent(c, s) && !s.parent.Returned? {
      StoppedParentHangs(c, s);
    }
    if Orphaned(s) || Stalled(c, s) {
      HungRunsAreStopped(c, s);
    }
  }

  // ----- what create promises

  /** Success: the intermediate is gone, the init was attached and announced itself, it is in its
      cgroup for as long as it lives, the record names it and its start time, and so does the pid file
      where one is asked for. */
  lemma SuccessKeepsItsPromise(c: Config, choices: seq<Choice>)
    requires Run(c, choices).Some?
    requires Run(c, choices).value.parent == Returned(true)
    ensures var s := Run(c, choices).value;
            && s.middle.Gone?
            && Reached(c, Parked) <= s.past.log
            && (InitAlive(s) ==> s.leaf.member)
            && s.leaf.present && s.disk.dir && s.disk.fifo && s.deeds.named
            && s.disk.record == Some(Record(c.initPid, c.initStart))
  {
    RunKeepsInv(c, choices);
    ReturnedIsReady(c, Run(c, choices).value);
  }

  /** So every step before the announcement has been made that the bundle asks for. */
  lemma SuccessIsComplete(c: Config, choices: seq<Choice>)
    requires Run(c, choices).Some?
    requires Run(c, choices).value.parent == Returned(true)
    ensures var log := Run(c, choices).value.past.log;
            && Attached in log && PrestartHooksRan in log && CreateRuntimeHooksRan in log
            && (CgroupUnshared in log <==> c.cgroupNamespace)
            && (RootfsMounted in log <==> c.mountNamespace) && (RootPivoted in log <==> c.mountNamespace)
            && CreateContainerHooksRan in log && ReadySent in log
  {
    var log := Run(c, choices).value.past.log;
    SuccessKeepsItsPromise(c, choices);
    StepsFollowTheScript(c, choices);
    var ready := Reached(c, Parked);
    assert forall e :: e in ready ==> e in log by {
      forall e | e in ready ensures e in log {
        var i :| 0 <= i < |ready| && ready[i] == e;
        assert log[i] == e;
      }
    }
    ReachedParked(c);
    assert forall e :: e in log ==> e in Script(c);
  }

  lemma ReachedParked(c: Config)
    ensures var ready := Reached(c, Parked);
            && Attached in ready && PrestartHooksRan in ready && CreateRuntimeHooksRan in ready
            && (c.cgroupNamespace ==> CgroupUnshared in ready)
            && (c.mountNamespace ==> RootfsMounted in ready && RootPivoted in ready)
            && CreateContainerHooksRan in ready && ReadySent in ready
    ensures CgroupUnshared in Script(c) ==> c.cgroupNamespace
    ensures RootfsMounted in Script(c) || RootPivoted in Script(c) ==> c.mountNamespace
  {
  }

  /** The exec fifo is there from the end of the step that makes it until rollback removes it, and not
      before. */
  lemma FifoIsThere(c: Config, choices: seq<Choice>)
    requires Run(c, choices).Some?
    ensures var s := Run(c, choices).value;
            && (ParentRank(s.parent) <= ParentRank(MakingFifo) ==> !s.disk.fifo)
            && (ParentRank(MakingFifo) < ParentRank(s.parent) <= ParentRank(RemovingFifo) ==> s.disk.fifo)
            && (s.parent == Returned(true) ==> s.disk.fifo)
  {
    RunKeepsInv(c, choices);
    FifoOfPlace(c, Run(c, choices).value);
  }

  lemma FifoOfPlace(c: Config, s: State)
    requires Resources(c, s)
    ensures ParentRank(s.parent) <= 3 ==> !s.disk.fifo
    ensures 3 < ParentRank(s.parent) <= 20 || s.parent == Returned(true) ==> s.disk.fifo
  {
  }

  /** The init is forked inside the namespaces that were joined and created; and with a user namespace
      nobody acts as root in it before the mappings were written, and no init is forked before somebody
      did. */
  lemma MappingsComeFirst(c: Config, choices: seq<Choice>)
    requires Run(c, choices).Some?
    ensures var s := Run(c, choices).value;
            && (UserMappingDone in s.wire.toChildren || s.middle.BecomingRoot? ==> s.deeds.mapped)
            && (!s.init.NotForked? ==> s.deeds.isolated)
            && (c.userNamespace && !s.init.NotForked? ==> s.deeds.mapped && s.deeds.rooted)
  {
    RunKeepsInv(c, choices);
  }

  lemma ReturnedIsReady(c: Config, s: State)
    requires ParentQueue(c, s) && Coherent(c, s) && Ordered(c, s) && s.parent == Returned(true)
    ensures s.middle.Gone? && Reached(c, Parked) <= s.past.log
  {
    assert ReadySent in s.past.log;
  }

  /** Failure: what is left on disk or in the cgroup tree is exactly what could not be removed, and a
      leaf that was there already when create did not get as far as taking it. */
  lemma FailureLeavesNothing(c: Config, choices: seq<Choice>)
    requires Run(c, choices).Some?
    requires Run(c, choices).value.parent == Returned(false)
    ensures var s := Run(c, choices).value;
            && (s.leaf.present <==> s.leaf.stuck || (c.existed && !s.around.made))
            && (s.disk.dir <==> s.disk.stuck)
            && (!s.disk.stuck ==> !s.disk.fifo && s.disk.record.None?)
            && (s.leaf.member ==> s.leaf.unread)
  {
    RunKeepsInv(c, choices);
  }

  /** What was in the cgroup tree before is as it was: the leaf is there, and so are its processes. */
  predicate Untouched(c: Config, s: State) {
    c.existed ==> s.leaf.present && (Others(c) ==> OthersLeft(c, s))
  }

  /** After a failure that is so exactly if there was no leaf, if create did not get as far as taking it,
      or if neither removing it nor killing others in it succeeded. */
  lemma RollbackTouchesExactly(c: Config, choices: seq<Choice>)
    requires Run(c, choices).Some?
    requires Run(c, choices).value.parent == Returned(false)
    ensures var s := Run(c, choices).value;
            Untouched(c, s)
            <==> !c.existed || !s.around.made || (s.leaf.stuck && !(Others(c) && s.around.listed))
  {
    RunKeepsInv(c, choices);
    ListedIsMade(c, choices);
  }

  lemma {:induction false} ListedIsMade(c: Config, choices: seq<Choice>)
    requires Run(c, choices).Some?
    ensures Run(c, choices).value.around.listed ==> Run(c, choices).value.around.made
  {
    if choices != [] {
      var before := choices[..|choices| - 1];
      ListedIsMade(c, before);
      RunKeepsInv(c, before);
      StepKeepsMade(c, Run(c, before).value, choices[|choices| - 1]);
    }
  }

  lemma StepKeepsMade(c: Config, s: State, choice: Choice)
    requires Resources(c, s) && Step(c, s, choice).Some?
    requires s.around.listed ==> s.around.made
    ensures var t := Step(c, s, choice).value;
            t.around.listed ==> t.around.made
  {
    if choice.Parent? && choice.ok {
      assert Step(c, s, choice).value.around == ParentAround(c, s, true);
    }
  }

  lemma StoppedChildren(c: Config, s: State)
    requires Inv(c, s) && Quiescent(c, s) && s.parent == Returned(false)
    ensures s.middle.NotForked? || s.middle.Gone?
    ensures s.init.NotForked? || s.init.Gone? <==> !s.leaf.member
  {
    assert MiddleGoes(c, s, true).None?;
    assert !s.leaf.killed || !InitAlive(s);
    if !Held(s) {
      assert InitGoes(c, s, true).None?;
    }
  }

  /** After a failure every forked process was killed or saw its channel close, and has exited; but an
      init that could not be listed is left exactly where it is still a member of the leaf. */
  lemma FailureEndsEveryChild(c: Config, choices: seq<Choice>)
    requires Run(c, choices).Some?
    requires var s := Run(c, choices).value;
             s.parent == Returned(false) && Quiescent(c, s)
    ensures var s := Run(c, choices).value;
            && (s.middle.NotForked? || s.middle.Gone?)
            && (s.init.NotForked? || s.init.Gone? <==> !s.leaf.member)
            && (s.leaf.member ==> s.leaf.unread)
  {
    RunKeepsInv(c, choices);
    StoppedChildren(c, Run(c, choices).value);
  }

  // ----- when create returns

  /** The intermediate is not killed, and when it reports a failure the report gets through. */
  ghost predicate MiddleSpeaks(c: Config, choices: seq<Choice>)
    requires Run(c, choices).Some?
  {
    choices != [] ==>
      var before, last := choices[..|choices| - 1], choices[|choices| - 1];
      && MiddleSpeaks(c, before)
      && last != KillMiddle
      && (Run(c, before).value.middle.Failing? ==> last != Middle(false))
  }

  ghost predicate Spoken(s: State) {
    ((s.parent.AwaitFirst? || s.parent.AwaitPid?) && (s.middle.Exiting? || s.middle.Gone?)) ==>
      s.wire.toParent != []
  }

  lemma {:induction false} SpeakingIsHeard(c: Config, choices: seq<Choice>)
    requires Run(c, choices).Some? && MiddleSpeaks(c, choices)
    ensures Spoken(Run(c, choices).value)
  {
    if choices != [] {
      var before, last := choices[..|choices| - 1], choices[|choices| - 1];
      SpeakingIsHeard(c, before);
      RunKeepsInv(c, before);
      StepKeepsSpoken(c, Run(c, before).value, last);
    }
  }

  lemma StepKeepsSpoken(c: Config, s: State, choice: Choice)
    requires Inv(c, s) && Spoken(s) && Step(c, s, choice).Some?
    requires choice != KillMiddle && (s.middle.Failing? ==> choice != Middle(false))
    ensures Spoken(Step(c, s, choice).value)
  {
    match choice
    case Parent(ok) => ParentKeepsSpoken(c, s, ok);
    case Init(ok) => InitKeepsSpoken(c, s, ok);
    case _ =>
  }

  lemma ParentKeepsSpoken(c: Config, s: State, ok: bool)
    requires ParentQueue(c, s) && Coherent(c, s) && Spoken(s) && Step(c, s, Parent(ok)).Some?
    ensures Spoken(Step(c, s, Parent(ok)).value)
  {
  }

  lemma InitKeepsSpoken(c: Config, s: State, ok: bool)
    requires ParentQueue(c, s) && Coherent(c, s) && Spoken(s) && Step(c, s, Init(ok)).Some?
    ensures Spoken(Step(c, s, Init(ok)).value)
  {
  }

  /** Then a run that has stopped has returned, unless it is stalled; and on a leaf that is not frozen,
      which can be checked before the call, it always has. */
  lemma CreateReturns(c: Config, choices: seq<Choice>)
    requires Run(c, choices).Some? && MiddleSpeaks(c, choices)
    requires Quiescent(c, Run(c, choices).value)
    ensures var s := Run(c, choices).value;
            && (s.parent.Returned? <==> !Stalled(c, s))
            && (!WillFreeze(c) ==> s.parent.Returned?)
  {
    RunsHangExactly(c, choices);
    SpeakingIsHeard(c, choices);
    RunKeepsInv(c, choices);
    HangsOfASpeaker(c, Run(c, choices).value);
  }

  lemma HangsOfASpeaker(c: Config, s: State)
    requires Inv(c, s) && Spoken(s)
    ensures !Orphaned(s) && (Stalled(c, s) ==> WillFreeze(c) && !s.parent.Returned?)
  {
  }

  // ----- the run in which nothing fails

  predicate Smooth(choice: Choice) {
    choice == Parent(true) || choice == Middle(true) || choice == Init(true) || choice == Release
  }

  ghost predicate Fine(c: Config, s: State) {
    && (ParentRank(s.parent) < 20 || s.parent == Returned(true))
    && MiddleRank(s.middle) != 7
    && InitRank(s.init) < 12 && !s.leaf.killed
    && (MiddleRank(s.middle) >= 6 ==> !s.init.NotForked?)
    && (MiddleRank(s.middle) >= 8 && !s.past.tookPid ==> s.wire.toParent == Pid(c))
    && (s.parent.AwaitReady? && s.init.Executed? ==> s.wire.toParent != [])
    && (s.past.released ==> s.disk.record.Some?)
  }

  lemma {:induction false} SmoothRunsAreFine(c: Config, choices: seq<Choice>)
    requires Run(c, choices).Some? && forall choice :: choice in choices ==> Smooth(choice)
    ensures Fine(c, Run(c, choices).value)
  {
    if choices != [] {
      var before, last := choices[..|choices| - 1], choices[|choices| - 1];
      SmoothRunsAreFine(c, before);
      RunKeepsInv(c, before);
      assert last in choices;
      SmoothStepIsFine(c, Run(c, before).value, last);
    }
  }

  lemma SmoothParentIsFine(c: Config, s: State)
    requires ParentQueue(c, s) && Coherent(c, s) && Fine(c, s) && ParentStep(c, s, true).Some?
    ensures Fine(c, ParentStep(c, s, true).value)
  {
  }

  lemma SmoothMiddleIsFine(c: Config, s: State)
    requires ParentQueue(c, s) && Coherent(c, s) && Fine(c, s) && MiddleStep(c, s, true).Some?
    ensures Fine(c, MiddleStep(c, s, true).value)
  {
  }

  lemma SmoothInitIsFine(c: Config, s: State)
    requires ParentQueue(c, s) && Coherent(c, s) && Fine(c, s) && InitStep(c, s, true).Some?
    ensures Fine(c, InitStep(c, s, true).value)
  {
  }

  lemma SmoothStepIsFine(c: Config, s: State, choice: Choice)
    requires Inv(c, s) && Fine(c, s) && Smooth(choice) && Step(c, s, choice).Some?
    ensures Fine(c, Step(c, s, choice).value)
  {
    match choice
    case Parent(_) => SmoothParentIsFine(c, s);
    case Middle(_) => SmoothMiddleIsFine(c, s);
    case Init(_) => SmoothInitIsFine(c, s);
    case _ =>
  }

  /** When no kernel step fails and nobody is killed, `create` comes to an end and succeeds, if and only
      if the leaf is not frozen; otherwise it stalls. */
  lemma SmoothCreateSucceeds(c: Config, choices: seq<Choice>)
    requires Run(c, choices).Some? && forall choice :: choice in choices ==> Smooth(choice)
    requires Quiescent(c, Run(c, choices).value)
    ensures Run(c, choices).value.parent == Returned(true) <==> !WillFreeze(c)
    ensures Stalled(c, Run(c, choices).value) <==> WillFreeze(c)
  {
    SmoothRunsAreFine(c, choices);
    RunsHangExactly(c, choices);
    RunKeepsInv(c, choices);
    FrozenInitWaits(c, choices);
    if WillFreeze(c) {
      NotReadyBeforeTheScript(c, Run(c, choices).value);
    }
  }

  // ----- the frozen leaf

  /** With a frozen leaf nothing is logged after the parent's own steps, and the init does not come
      past its first read as long as the parent's end is open. */
  ghost predicate Waits(c: Config, s: State) {
    WillFreeze(c) ==> |s.past.log| <= 3 && !InitPast(s, 1)
                      && (ParentEndOpen(s) ==> !s.init.Failing? && !s.init.Exiting?)
  }

  lemma {:induction false} FrozenInitWaits(c: Config, choices: seq<Choice>)
    requires Run(c, choices).Some?
    ensures Waits(c, Run(c, choices).value)
  {
    if choices != [] {
      var before := choices[..|choices| - 1];
      FrozenInitWaits(c, before);
      RunKeepsInv(c, before);
      StepKeepsWaiting(c, Run(c, before).value, choices[|choices| - 1]);
    }
  }

  lemma StepKeepsWaiting(c: Config, s: State, choice: Choice)
    requires Inv(c, s) && Waits(c, s) && Step(c, s, choice).Some?
    ensures Waits(c, Step(c, s, choice).value)
  {
    match choice
    case Parent(ok) => ParentKeepsWaiting(c, s, ok);
    case Init(ok) => InitKeepsWaiting(c, s, ok);
    case _ =>
  }

  lemma ParentKeepsWaiting(c: Config, s: State, ok: bool)
    requires Inv(c, s) && Waits(c, s) && ParentStep(c, s, ok).Some?
    ensures Waits(c, ParentStep(c, s, ok).value)
  {
    StepKeepsInv(c, s, Parent(ok));
  }

  lemma InitKeepsWaiting(c: Config, s: State, ok: bool)
    requires Coherent(c, s) && Resources(c, s) && Waits(c, s) && InitStep(c, s, ok).Some?
    ensures Waits(c, InitStep(c, s, ok).value)
  {
  }

  lemma NotReadyBeforeTheScript(c: Config, s: State)
    requires Inv(c, s) && |s.past.log| <= 3
    ensures s.parent != Returned(true)
  {
    assert forall e :: e in s.past.log ==> e in Script(c)[..3];
    assert Script(c)[..3] == Setup();
  }

  /** Whatever fails and whoever is killed, `create` never succeeds on a frozen leaf. */
  lemma FrozenLeafNeverSucceeds(c: Config, choices: seq<Choice>)
    requires Run(c, choices).Some? && WillFreeze(c)
    ensures Run(c, choices).value.parent != Returned(true)
  {
    RunKeepsInv(c, choices);
    FrozenInitWaits(c, choices);
    NotReadyBeforeTheScript(c, Run(c, choices).value);
  }

  // ----- the two hangs happen

  /** Running one more choice. */
  lemma RunSnoc(c: Config, choices: seq<Choice>, choice: Choice)
    requires Run(c, choices).Some?
    ensures Run(c, choices + [choice]) == Step(c, Run(c, choices).value, choice)
  {
    assert (choices + [choice])[..|choices + [choice]| - 1] == choices;
  }

  /** A smooth run that has not stopped can go on smoothly. */
  lemma SmoothRunGoesOn(c: Config, choices: seq<Choice>) returns (longer: seq<Choice>)
    requires Run(c, choices).Some? && !Quiescent(c, Run(c, choices).value)
    requires forall choice :: choice in choices ==> Smooth(choice)
    ensures Run(c, longer).Some? && forall choice :: choice in longer ==> Smooth(choice)
    ensures |longer| == |choices| + 1 && longer[..|choices|] == choices
    ensures Step(c, Run(c, choices).value, longer[|choices|]) == Run(c, longer)
  {
    var s := Run(c, choices).value;
    var choice := if ParentStep(c, s, true).Some? then Parent(true)
                  else if MiddleStep(c, s, true).Some? then Middle(true) else Init(true);
    RunSnoc(c, choices, choice);
    longer := choices + [choice];
  }

  /** One signal is enough: the intermediate is killed between its fork and its InitPid packet, in any
      smooth run that reaches this point. */
  lemma KillAfterForkOrphans(c: Config, s: State)
    requires Inv(c, s) && Fine(c, s) && s.middle.SendingPid?
    ensures Step(c, s, KillMiddle).Some? && Orphaned(Step(c, s, KillMiddle).value)
  {
  }

  /** Every configuration has such a run. */
  lemma CreateCanHang(c: Config) returns (choices: seq<Choice>)
    ensures Run(c, choices).Some? && Orphaned(Run(c, choices).value)
    ensures choices != [] && choices[|choices| - 1] == KillMiddle
    ensures forall choice :: choice in choices[..|choices| - 1] ==> Smooth(choice)
  {
    var smooth: seq<Choice> := [];
    while !Run(c, smooth).value.middle.SendingPid?
      invariant BeforeTheFork(c, smooth)
      decreases 51 - |smooth|
    {
      smooth := GoToTheFork(c, smooth);
    }
    RunKeepsInv(c, smooth);
    SmoothRunsAreFine(c, smooth);
    KillAfterForkOrphans(c, Run(c, smooth).value);
    RunSnoc(c, smooth, KillMiddle);
    choices := smooth + [KillMiddle];
    assert choices[..|choices| - 1] == smooth;
  }

  ghost predicate BeforeTheFork(c: Config, choices: seq<Choice>) {
    && Run(c, choices).Some?
    && (forall choice :: choice in choices ==> Smooth(choice))
    && MiddleRank(Run(c, choices).value.middle) <= 6
  }

  lemma GoToTheFork(c: Config, smooth: seq<Choice>) returns (longer: seq<Choice>)
    requires BeforeTheFork(c, smooth) && !Run(c, smooth).value.middle.SendingPid?
    ensures BeforeTheFork(c, longer) && |smooth| < |longer| <= 51
  {
    RunKeepsInv(c, smooth);
    SmoothRunsAreFine(c, smooth);
    BeforeTheForkGoesOn(c, smooth);
    longer := SmoothRunGoesOn(c, smooth);
    SmoothRunsAreFine(c, longer);
    assert longer[|smooth|] in longer;
    MiddleMovesByOne(c, Run(c, smooth).value, longer[|smooth|]);
    RunsAreShort(c, longer);
  }

  lemma BeforeTheForkGoesOn(c: Config, choices: seq<Choice>)
    requires Run(c, choices).Some? && MiddleRank(Run(c, choices).value.middle) <= 5
    requires Fine(c, Run(c, choices).value)
    ensures !Quiescent(c, Run(c, choices).value)
  {
    RunKeepsInv(c, choices);
    RunsHangExactly(c, choices);
    UnforkedIsUnfinished(c, Run(c, choices).value);
  }

  lemma UnforkedIsUnfinished(c: Config, s: State)
    requires Inv(c, s) && Fine(c, s) && MiddleRank(s.middle) <= 5
    ensures !s.parent.Returned? && !Orphaned(s) && !Stalled(c, s)
  {
  }

  lemma MiddleMovesByOne(c: Config, s: State, choice: Choice)
    requires Inv(c, s) && Smooth(choice) && Step(c, s, choice).Some?
    requires MiddleRank(s.middle) <= 5 && Fine(c, Step(c, s, choice).value)
    ensures MiddleRank(Step(c, s, choice).value.middle) <= 6
  {
    StepKeepsInv(c, s, choice);
  }

  /** On a frozen leaf every smooth run can be continued until it stalls, and there is one. */
  lemma CreateCanStall(c: Config) returns (choices: seq<Choice>)
    requires WillFreeze(c)
    ensures Run(c, choices).Some? && Stalled(c, Run(c, choices).value)
    ensures forall choice :: choice in choices ==> Smooth(choice)
  {
    choices := [];
    while !Quiescent(c, Run(c, choices).value)
      invariant Run(c, choices).Some? && forall choice :: choice in choices ==> Smooth(choice)
      decreases 51 - |choices|
    {
      choices := SmoothRunGoesOn(c, choices);
      RunsAreShort(c, choices);
    }
    SmoothCreateSucceeds(c, choices);
  }

  // ----- a leaf that was there before

  /** A rollback that reaches a leaf which create did not make, and the processes in it: the intermediate
      is killed before it could do anything. */
  lemma RollbackReachesBeyond(c: Config) returns (choices: seq<Choice>)
    requires c.existed
    ensures Run(c, choices).Some? && Run(c, choices).value.parent == Returned(false)
    ensures !Untouched(c, Run(c, choices).value)
  {
    StartIsGoingIn(c);
    choices := ToTheFirstRead(c, [], Start(c));
    choices := LoseTheIntermediate(c, choices);
    choices := BackOut(c, choices);
    BackedOutIsNotUntouched(c, Run(c, choices).value);
  }

  lemma BackedOutIsNotUntouched(c: Config, s: State)
    requires c.existed && BackingOut(s) && s.parent == Returned(false)
    ensures !Untouched(c, s)
  {
  }

  lemma LoseTheIntermediate(c: Config, choices: seq<Choice>) returns (longer: seq<Choice>)
    requires Run(c, choices).Some? && GoingIn(c, Run(c, choices).value)
    requires ParentRank(Run(c, choices).value.parent) == 7
    ensures Run(c, longer).Some? && BackingOut(Run(c, longer).value)
  {
    RunSnoc(c, choices, KillMiddle);
    longer := choices + [KillMiddle];
    RunSnoc(c, longer, Parent(true));
    longer := longer + [Parent(true)];
    LostIntermediate(c, Run(c, choices).value);
  }

  lemma LostIntermediate(c: Config, s: State)
    requires GoingIn(c, s) && ParentRank(s.parent) == 7
    ensures Step(c, s, KillMiddle).Some?
    ensures var t := Step(c, s, KillMiddle).value;
            Step(c, t, Parent(true)).Some? && BackingOut(Step(c, t, Parent(true)).value)
  {
  }

  /** Where a create stands that nothing has failed, before the intermediate makes its first step. */
  predicate GoingIn(c: Config, s: State) {
    && ParentRank(s.parent) <= 7
    && s.wire == Wire([], []) && s.init.NotForked?
    && s.middle == (if ParentRank(s.parent) < 7 then MiddlePc.NotForked else Joining)
    && !s.leaf.member && !s.around.listed
  }

  lemma GoInMore(c: Config, choices: seq<Choice>) returns (longer: seq<Choice>)
    requires Run(c, choices).Some? && GoingIn(c, Run(c, choices).value)
    requires ParentRank(Run(c, choices).value.parent) < 7
    ensures Run(c, longer).Some? && GoingIn(c, Run(c, longer).value)
    ensures ParentRank(Run(c, longer).value.parent) > ParentRank(Run(c, choices).value.parent)
  {
    RunSnoc(c, choices, Parent(true));
    longer := choices + [Parent(true)];
    GoInStep(c, Run(c, choices).value);
  }

  lemma GoInStep(c: Config, s: State)
    requires GoingIn(c, s) && ParentRank(s.parent) < 7
    ensures ParentStep(c, s, true).Some? && GoingIn(c, ParentStep(c, s, true).value)
    ensures ParentRank(ParentStep(c, s, true).value.parent) > ParentRank(s.parent)
  {
  }

  lemma StartIsGoingIn(c: Config)
    ensures Run(c, []) == Some(Start(c)) && GoingIn(c, Start(c))
  {
  }

  lemma {:induction false} ToTheFirstRead(c: Config, choices: seq<Choice>, s: State) returns (longer: seq<Choice>)
    requires Run(c, choices) == Some(s) && GoingIn(c, s)
    ensures Run(c, longer).Some? && GoingIn(c, Run(c, longer).value)
    ensures ParentRank(Run(c, longer).value.parent) == 7
    decreases 7 - ParentRank(s.parent)
  {
    longer := choices;
    if ParentRank(s.parent) < 7 {
      longer := GoInMore(c, choices);
      longer := ToTheFirstRead(c, longer, Run(c, longer).value);
    }
  }

  /** Where a rollback stands that has nothing to wait for. */
  predicate BackingOut(s: State) {
    && ParentRank(s.parent) >= 20 && !s.parent.Confused? && s.parent != Returned(true) && !s.leaf.member
    && (ParentRank(s.parent) >= 22 ==> s.around.listed)
    && (ParentRank(s.parent) >= 24 ==> !s.leaf.present)
  }

  lemma BackOutMore(c: Config, choices: seq<Choice>) returns (longer: seq<Choice>)
    requires Run(c, choices).Some? && BackingOut(Run(c, choices).value)
    requires !Run(c, choices).value.parent.Returned?
    ensures Run(c, longer).Some? && BackingOut(Run(c, longer).value)
    ensures ParentRank(Run(c, longer).value.parent) > ParentRank(Run(c, choices).value.parent)
  {
    RunSnoc(c, choices, Parent(true));
    longer := choices + [Parent(true)];
    BackOutStep(c, Run(c, choices).value);
  }

  lemma BackOutStep(c: Config, s: State)
    requires BackingOut(s) && !s.parent.Returned?
    ensures ParentStep(c, s, true).Some? && BackingOut(ParentStep(c, s, true).value)
    ensures ParentRank(ParentStep(c, s, true).value.parent) > ParentRank(s.parent)
  {
  }

  lemma BackOut(c: Config, start: seq<Choice>) returns (choices: seq<Choice>)
    requires Run(c, start).Some? && BackingOut(Run(c, start).value)
    ensures Run(c, choices).Some? && BackingOut(Run(c, choices).value)
    ensures Run(c, choices).value.parent == Returned(false)
  {
    choices := start;
    while !Run(c, choices).value.parent.Returned?
      invariant Run(c, choices).Some? && BackingOut(Run(c, choices).value)
      decreases 26 - ParentRank(Run(c, choices).value.parent)
    {
      choices := BackOutMore(c, choices);
    }
  }

  /** So exactly when no leaf is there before the call can no failure touch more than create made. */
  lemma RollbackIsCleanExactly(c: Config)
    ensures (forall choices :: Run(c, choices).Some? && Run(c, choices).value.parent == Returned(false) ==>
               Untouched(c, Run(c, choices).value))
            <==> !c.existed
  {
    if c.existed {
      var choices := RollbackReachesBeyond(c);
      assert !Untouched(c, Run(c, choices).value);
    }
  }
}
