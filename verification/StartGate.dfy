/** The exec fifo that holds a created container until `start`, and the status derived from it
    (src/container/fifo.rs, src/container/mod.rs `start`, src/state.rs `status`).

    The model begins when `create` has returned Ok, and ends before `delete`. Any number of
    `start` calls run at once, any of them may be killed, the init may die, its pid may be
    reaped and given to another process, and the cgroup may be frozen and thawed. */
module StartGate {
  import opened Wrappers

  /** Where one `start` call stands. */
  datatype Caller =
    | Idle
    | SeenAlive | SeenThawed    // the status is read in three places, one after the other
    | Checked                  // and was Created
    | Found                    // the path of the fifo exists
    | Opening(writersSeen: nat)
    | Open
    | Got                      // it read the handshake byte
    | Done(ok: bool)

  datatype InitPc =
    | Parking | Opening(readersSeen: nat) | Writing | Closing | StartHooks | Executed | Dead

  datatype Status = Created | Running | Paused | Stopped

  datatype State = State(
    callers: seq<Caller>,
    init: InitPc,
    linked: bool,              // exec.fifo exists in the container directory
    buffered: nat,             // bytes in the fifo
    readersEver: nat,          // how often it was opened for reading, and for writing
    writersEver: nat,
    written: nat,              // handshake bytes the init has written
    takers: seq<nat>,          // the callers that read one, in order
    holder: Option<nat>,       // start time of the process that has the recorded pid now
    recorded: nat,             // start time in the container record
    readable: bool,            // the line of the pid's holder in /proc is UTF-8
    frozen: bool)

  predicate Start(s: State) {
    && (forall k :: 0 <= k < |s.callers| ==> s.callers[k] == Idle)
    && s.init == Parking && s.linked
    && s.buffered == 0 && s.readersEver == 0 && s.writersEver == 0 && s.written == 0
    && s.takers == []
    && s.holder == Some(s.recorded)
    && s.readable              // create has read it
  }

  // ----- the derived status

  /** The pid's holder is the recorded process, as far as start times tell. */
  predicate Matches(s: State) {
    s.holder == Some(s.recorded)
  }

  /** `alive`: a line that cannot be read counts as a dead process. Which lines can is
      `ProcStat.ReadExactly`. */
  predicate Alive(s: State) {
    Matches(s) && s.readable
  }

  function StatusOf(s: State): Status {
    if !Alive(s) then Stopped
    else if s.frozen then Paused
    else if s.linked then Created
    else Running
  }

  // ----- the fifo

  predicate Reads(c: Caller) {
    c.Opening? || c.Open? || c.Got?
  }

  predicate HasReader(s: State) {
    exists k :: 0 <= k < |s.callers| && Reads(s.callers[k])
  }

  predicate HasWriter(s: State) {
    s.init.Opening? || s.init.Writing? || s.init.Closing?
  }

  /** When nobody holds the fifo any more, what was buffered in it is gone. */
  function Settle(s: State): State {
    if HasReader(s) || HasWriter(s) then s else s.(buffered := 0)
  }

  function Moved(s: State, k: nat, c: Caller): State
    requires k < |s.callers|
  {
    s.(callers := s.callers[k := c])
  }

  // ----- one caller of start

  function CallerStep(s: State, k: nat): Option<State>
    requires k < |s.callers|
  {
    match s.callers[k]
    case Idle => Some(Moved(s, k, if Alive(s) then SeenAlive else Done(false)))
    case SeenAlive => Some(Moved(s, k, if s.frozen then Done(false) else SeenThawed))
    case SeenThawed => Some(Moved(s, k, if s.linked then Checked else Done(false)))
    case Checked => Some(Moved(s, k, if s.linked then Found else Done(false)))
    case Found =>
      if s.linked then
        Some(Moved(s, k, Caller.Opening(s.writersEver)).(readersEver := s.readersEver + 1))
      else Some(Moved(s, k, Done(false)))
    case Opening(seen) =>  // open(O_RDONLY) returns once a writer is there or has been
      if HasWriter(s) || s.writersEver != seen then Some(Moved(s, k, Open)) else None
    case Open =>
      if s.buffered > 0 then
        Some(Moved(s, k, Got).(buffered := s.buffered - 1, takers := s.takers + [k]))
      else if HasWriter(s) then None
      else Some(Settle(Moved(s, k, Done(false))))
    case Got =>  // remove_file fails when another caller removed it
      Some(Settle(Moved(s, k, Done(s.linked)).(linked := false)))
    case Done(_) => None
  }

  // ----- the init

  function InitStep(s: State, ok: bool): Option<State> {
    if !ok then (if s.init.Dead? || s.init.Executed? then None else Some(Settle(s.(init := Dead)))) else
    match s.init
    case Parking => Some(s.(init := InitPc.Opening(s.readersEver), writersEver := s.writersEver + 1))
    case Opening(seen) =>  // open(O_WRONLY) returns once a reader is there or has been
      if HasReader(s) || s.readersEver != seen then Some(s.(init := Writing)) else None
    case Writing =>
      if HasReader(s) then Some(s.(init := Closing, buffered := s.buffered + 1, written := s.written + 1))
      else Some(Settle(s.(init := Dead)))
    case Closing => Some(Settle(s.(init := StartHooks)))
    case StartHooks => Some(s.(init := Executed))
    case Executed => None
    case Dead => None
  }

  // ----- runs

  datatype Choice =
    | Call(caller: nat)
    | KillCaller(caller: nat)
    | Init(ok: bool)
    | KillInit
    | Reap                       // a dead holder of the pid, the init first, gives it up
    | Recycle(startTime: nat)    // another process gets it; start times are clock ticks and may repeat
    | Freeze(frozen: bool)
    | Rename(readable: bool)     // execve, or the process itself, changes the command name

  function Step(s: State, choice: Choice): Option<State> {
    match choice
    case Call(k) => if k < |s.callers| then CallerStep(s, k) else None
    case KillCaller(k) =>
      if k < |s.callers| && !s.callers[k].Done? then Some(Settle(Moved(s, k, Done(false)))) else None
    case Init(ok) => InitStep(s, ok)
    case KillInit => if s.init.Dead? then None else Some(Settle(s.(init := Dead)))
    case Reap => if s.init.Dead? && s.holder.Some? then Some(s.(holder := None)) else None
    case Recycle(t) =>
      if s.init.Dead? && s.holder.None? then Some(s.(holder := Some(t))) else None
    case Freeze(f) => Some(s.(frozen := f))
    case Rename(r) =>
      if s.init.Executed? || (s.init.Dead? && s.holder.Some?) then Some(s.(readable := r)) else None
  }

  /** The states a run passes through, first and last included. */
  ghost predicate IsRun(states: seq<State>, choices: seq<Choice>) {
    && |states| == |choices| + 1
    && Start(states[0])
    && forall i :: 0 <= i < |choices| ==> Step(states[i], choices[i]) == Some(states[i + 1])
  }

  // ----- the invariant

  predicate Took(s: State, k: nat) {
    k in s.takers
  }

  /** A caller that read the byte, or that succeeded, is recorded as a taker. */
  ghost predicate TakersKnown(s: State) {
    forall k :: 0 <= k < |s.callers| && (s.callers[k].Got? || s.callers[k] == Done(true)) ==> Took(s, k)
  }

  ghost predicate Counts(s: State) {
    && s.written <= 1
    && |s.takers| + s.buffered <= s.written
    && (s.init.Parking? || s.init.Opening? || s.init.Writing? ==> s.written == 0)
    && (s.init.Closing? || s.init.StartHooks? || s.init.Executed? ==> s.written == 1)
    && (s.written == 1 || s.init.Writing? ==> s.readersEver > 0)
    && (s.init.Opening? ==> s.init.readersSeen <= s.readersEver)
    && (HasReader(s) ==> s.readersEver > 0)
    && (!s.linked ==> |s.takers| == 1)
    && (!s.init.Dead? ==> s.holder == Some(s.recorded))
  }

  ghost predicate Inv(s: State) {
    Counts(s) && TakersKnown(s)
  }

  /** Moving one caller leaves the others' claims alone. */
  lemma MovedKeepsTakers(s: State, t: State, k: nat)
    requires TakersKnown(s) && k < |s.callers| == |t.callers|
    requires forall j :: 0 <= j < |s.callers| && j != k ==> t.callers[j] == s.callers[j]
    requires forall j :: Took(s, j) ==> Took(t, j)
    requires t.callers[k].Got? || t.callers[k] == Done(true) ==> Took(t, k)
    ensures TakersKnown(t)
  {
  }

  lemma CallerKeepsTakers(s: State, k: nat)
    requires TakersKnown(s) && k < |s.callers| && CallerStep(s, k).Some?
    requires !s.linked ==> |s.takers| == 1
    ensures TakersKnown(CallerStep(s, k).value)
  {
    var t := CallerStep(s, k).value;
    if s.callers[k].Open? && s.buffered > 0 {
      assert t.takers == s.takers + [k];
    } else {
      assert t.takers == s.takers;
    }
    assert s.callers[k].Got? ==> Took(s, k);
    MovedKeepsTakers(s, t, k);
  }

  lemma CallerKeepsCounts(s: State, k: nat)
    requires Inv(s) && k < |s.callers| && CallerStep(s, k).Some?
    ensures Counts(CallerStep(s, k).value)
  {
    if s.callers[k].Open? {
      ReadKeepsCounts(s, k);
    } else if s.callers[k].Got? {
      assert Took(s, k);
      UnlinkKeepsCounts(s, k);
    } else {
      ReadersAfterMove(s, k);
    }
  }

  lemma ReadKeepsCounts(s: State, k: nat)
    requires Counts(s) && k < |s.callers| && s.callers[k].Open? && CallerStep(s, k).Some?
    ensures Counts(CallerStep(s, k).value)
  {
    assert Reads(s.callers[k]);
    ReadersAfterMove(s, k);
  }

  lemma UnlinkKeepsCounts(s: State, k: nat)
    requires Counts(s) && k < |s.callers| && s.callers[k].Got? && Took(s, k)
    ensures Counts(CallerStep(s, k).value)
  {
    assert Reads(s.callers[k]);
    ReadersAfterMove(s, k);
  }

  /** Moving a caller adds a reader only where the fifo is opened for reading. */
  lemma ReadersAfterMove(s: State, k: nat)
    requires k < |s.callers| && CallerStep(s, k).Some?
    ensures HasReader(CallerStep(s, k).value) ==> HasReader(s) || CallerStep(s, k).value.readersEver > s.readersEver
  {
    var t := CallerStep(s, k).value;
    if HasReader(t) {
      var j :| 0 <= j < |t.callers| && Reads(t.callers[j]);
      if j != k {
        assert Reads(s.callers[j]);
      } else if !s.callers[k].Found? {
        assert Reads(s.callers[k]);
      }
    }
  }

  lemma OtherStepsKeepInv(s: State, choice: Choice)
    requires Inv(s) && Step(s, choice).Some? && !choice.Call? && !choice.KillCaller?
    ensures Inv(Step(s, choice).value)
  {
    var t := Step(s, choice).value;
    assert t.callers == s.callers && t.takers == s.takers;
    SameReaders(s, t);
  }

  lemma SameReaders(s: State, t: State)
    requires t.callers == s.callers && t.takers == s.takers
    ensures HasReader(t) == HasReader(s)
    ensures TakersKnown(s) ==> TakersKnown(t)
  {
    assert forall j :: Took(s, j) ==> Took(t, j);
  }

  lemma KillKeepsInv(s: State, k: nat)
    requires Inv(s) && Step(s, KillCaller(k)).Some?
    ensures Inv(Step(s, KillCaller(k)).value)
  {
    var t := Step(s, KillCaller(k)).value;
    MovedKeepsTakers(s, t, k);
    if HasReader(t) {
      var j :| 0 <= j < |t.callers| && Reads(t.callers[j]);
      assert Reads(s.callers[j]);
    }
  }

  lemma StepKeepsInv(s: State, choice: Choice)
    requires Inv(s) && Step(s, choice).Some?
    ensures Inv(Step(s, choice).value)
  {
    match choice
    case Call(k) =>
      CallerKeepsCounts(s, k);
      CallerKeepsTakers(s, k);
    case KillCaller(k) => KillKeepsInv(s, k);
    case _ => OtherStepsKeepInv(s, choice);
  }

  lemma TransitionKeepsInv(s: State, choice: Choice, t: State)
    requires Inv(s) && Step(s, choice) == Some(t)
    ensures Inv(t) && t.recorded == s.recorded
  {
    StepKeepsInv(s, choice);
    RecordStays(s, choice, t);
  }

  lemma RecordStays(s: State, choice: Choice, t: State)
    requires Step(s, choice) == Some(t)
    ensures t.recorded == s.recorded
  {
    if choice.Call? { CallersKeepTheProcess(s, choice.caller); }
  }

  lemma RunHasStep(states: seq<State>, choices: seq<Choice>, i: nat)
    requires IsRun(states, choices) && i < |choices|
    ensures Step(states[i], choices[i]) == Some(states[i + 1])
  {
  }

  lemma StartIsFine(s: State)
    requires Start(s)
    ensures Inv(s)
  {
    assert !HasReader(s);
  }

  lemma {:induction false} RunKeepsInv(states: seq<State>, choices: seq<Choice>, i: nat)
    requires IsRun(states, choices) && i < |states|
    ensures Inv(states[i]) && states[i].recorded == states[0].recorded
  {
    if i == 0 {
      StartIsFine(states[0]);
    } else {
      RunKeepsInv(states, choices, i - 1);
      RunHasStep(states, choices, i - 1);
      TransitionKeepsInv(states[i - 1], choices[i - 1], states[i]);
    }
  }

  // ----- a single start

  /** However many callers there are, at most one release succeeds, and it is the one that read
      the only handshake byte. */
  lemma AtMostOneRelease(states: seq<State>, choices: seq<Choice>, i: nat, j: nat, k: nat)
    requires IsRun(states, choices) && i < |states|
    requires j < |states[i].callers| && k < |states[i].callers|
    requires states[i].callers[j] == Done(true)
    ensures states[i].takers == [j] && states[i].written == 1
    ensures states[i].callers[k] == Done(true) ==> j == k
  {
    RunKeepsInv(states, choices, i);
    assert Took(states[i], j);
    assert states[i].callers[k] == Done(true) ==> Took(states[i], k);
  }

  /** The start hooks and the user program run only after the fifo was opened for reading and the
      byte was written. */
  lemma ProgramWaitsForStart(states: seq<State>, choices: seq<Choice>, i: nat)
    requires IsRun(states, choices) && i < |states|
    requires states[i].init.StartHooks? || states[i].init.Executed?
    ensures states[i].readersEver > 0 && states[i].written == 1
  {
    RunKeepsInv(states, choices, i);
  }

  // ----- the derived status over a run

  /** What `status` reports when it reads the process table at state `i`, the freezer at state `j`
      and the directory at state `k`: the three reads are not one atomic step. */
  function Observed(states: seq<State>, i: nat, j: nat, k: nat): Status
    requires i <= j <= k < |states|
  {
    if !Alive(states[i]) then Stopped
    else if states[j].frozen then Paused
    else if states[k].linked then Created
    else Running
  }

  /** An observed Running means that a start has read the byte. */
  lemma RunningMeansReleased(states: seq<State>, choices: seq<Choice>, i: nat, j: nat, k: nat)
    requires IsRun(states, choices) && i <= j <= k < |states|
    requires Observed(states, i, j, k) == Running
    ensures |states[k].takers| == 1 && states[k].written == 1
  {
    RunKeepsInv(states, choices, k);
  }

  lemma UnlinkedStays(s: State, choice: Choice, t: State)
    requires Step(s, choice) == Some(t) && !s.linked
    ensures !t.linked
  {
  }

  lemma {:induction false} UnlinkIsFinal(states: seq<State>, choices: seq<Choice>, i: nat, j: nat)
    requires IsRun(states, choices) && i <= j < |states|
    requires !states[i].linked
    ensures !states[j].linked
    decreases j - i
  {
    if i < j {
      RunHasStep(states, choices, i);
      UnlinkedStays(states[i], choices[i], states[i + 1]);
      UnlinkIsFinal(states, choices, i + 1, j);
    }
  }

  /** Only reaping ends the life of the recorded process, and only a new holder of the pid with the very
      same start time is taken for it. */
  lemma LifeOfAStatus(s: State, choice: Choice, t: State)
    requires Inv(s) && Step(s, choice) == Some(t)
    ensures Matches(t) <==> (Matches(s) && choice != Reap) || choice == Recycle(s.recorded)
    ensures Matches(s) && !Matches(t) ==> t.init.Dead?
    ensures s.init.Dead? ==> t.init.Dead?
  {
    match choice
    case Call(k) => CallersKeepTheProcess(s, k);
    case KillCaller(k) =>
    case _ =>
  }

  lemma CallersKeepTheProcess(s: State, k: nat)
    requires k < |s.callers| && CallerStep(s, k).Some?
    ensures var t := CallerStep(s, k).value;
            t.frozen == s.frozen && t.holder == s.holder && t.recorded == s.recorded && t.readable == s.readable && t.init == s.init
  {
  }

  /** The pid of a container that was reaped is taken for it again exactly when it was given, meanwhile,
      to a process with the recorded start time. */
  lemma {:induction false} FoundAliveAgain(states: seq<State>, choices: seq<Choice>, i: nat, j: nat)
    requires IsRun(states, choices) && i <= j < |states|
    requires !Matches(states[i])
    ensures (exists m :: i <= m <= j && Matches(states[m])) <==> Recycle(states[0].recorded) in choices[i..j]
    decreases j - i
  {
    if i < j {
      var k := j - 1;
      FoundAliveAgain(states, choices, i, k);
      RunKeepsInv(states, choices, k);
      RunHasStep(states, choices, k);
      LifeOfAStatus(states[k], choices[k], states[j]);
      assert choices[i..j] == choices[i..k] + [choices[k]];
      if Matches(states[j]) && !Matches(states[k]) {
        assert choices[k] == Recycle(states[0].recorded);
      }
    }
  }

  /** So without such a repetition death is final. */
  lemma DeathIsFinal(states: seq<State>, choices: seq<Choice>, i: nat, j: nat)
    requires IsRun(states, choices) && i <= j < |states|
    requires !Matches(states[i])
    ensures Recycle(states[0].recorded) !in choices[i..j] ==> !Alive(states[j])
  {
    FoundAliveAgain(states, choices, i, j);
  }

  /** Once a container was seen Running it is never seen Created again. Once it was seen Stopped with a
      readable line it is Stopped in a later observation, whoever has its pid by then, unless the pid was
      given to a process with the recorded start time. */
  lemma StatusNeverGoesBack(states: seq<State>, choices: seq<Choice>,
                            i: nat, j: nat, k: nat, i': nat, j': nat, k': nat)
    requires IsRun(states, choices)
    requires i <= j <= k <= i' <= j' <= k' < |states|
    ensures Observed(states, i, j, k) == Running ==> Observed(states, i', j', k') != Created
    ensures Observed(states, i, j, k) == Stopped && ReadableAfter(choices[..i])
            && Recycle(states[0].recorded) !in choices[i..i'] ==>
              Observed(states, i', j', k') == Stopped
  {
    if !states[k].linked {
      UnlinkIsFinal(states, choices, k, k');
    }
    ReadableIsKnown(states, choices, i);
    if !Matches(states[i]) {
      DeathIsFinal(states, choices, i, i');
    }
  }

  /** The pid's holder after some choices, as far as start times tell. */
  function HolderAfter(recorded: nat, choices: seq<Choice>): Option<nat> {
    if choices == [] then Some(recorded)
    else
      match choices[|choices| - 1]
      case Reap => None
      case Recycle(t) => Some(t)
      case _ => HolderAfter(recorded, choices[..|choices| - 1])
  }

  /** Whether the line is readable after some choices: what the last renaming made of it. */
  predicate ReadableAfter(choices: seq<Choice>) {
    choices != [] ==>
      match choices[|choices| - 1]
      case Rename(r) => r
      case _ => ReadableAfter(choices[..|choices| - 1])
  }

  lemma ReadableStep(s: State, choice: Choice, t: State)
    requires Step(s, choice) == Some(t)
    ensures t.readable == if choice.Rename? then choice.readable else s.readable
  {
    if choice.Call? { CallersKeepTheProcess(s, choice.caller); }
  }

  lemma {:induction false} ReadableIsKnown(states: seq<State>, choices: seq<Choice>, i: nat)
    requires IsRun(states, choices) && i < |states|
    ensures states[i].readable == ReadableAfter(choices[..i])
  {
    if i > 0 {
      var j := i - 1;
      ReadableIsKnown(states, choices, j);
      RunHasStep(states, choices, j);
      ReadableStep(states[j], choices[j], states[i]);
      assert choices[..i][..j] == choices[..j] && choices[..i][j] == choices[j];
    }
  }

  lemma {:induction false} HolderIsKnown(states: seq<State>, choices: seq<Choice>, i: nat)
    requires IsRun(states, choices) && i < |states|
    ensures Matches(states[i]) <==> HolderAfter(states[0].recorded, choices[..i]) == Some(states[0].recorded)
    ensures !Matches(states[i]) ==> Reap in choices[..i]
    ensures Reap in choices[..i] && Recycle(states[0].recorded) !in choices[..i] ==> !Matches(states[i])
    ensures Reap in choices[..i] ==> states[i].init.Dead?
  {
    RunKeepsInv(states, choices, i);
    if i > 0 {
      var j := i - 1;
      HolderIsKnown(states, choices, j);
      RunKeepsInv(states, choices, j);
      RunHasStep(states, choices, j);
      LifeOfAStatus(states[j], choices[j], states[i]);
      ReapedIsDead(states[j], choices[j]);
      assert choices[..i] == choices[..j] + [choices[j]];
      assert choices[..i][..j] == choices[..j];
    }
  }

  lemma ReapedIsDead(s: State, choice: Choice)
    requires Step(s, choice).Some?
    ensures choice == Reap || choice.Recycle? ==> s.init.Dead?
  {
  }

  /** Stopped is reported exactly while the pid, since it was reaped, has no holder with the recorded start
      time, or its holder has a name that makes the line unreadable. With a readable line it means that
      the init died and was reaped; until the reaping a zombie still counts as alive. */
  lemma StoppedExactly(states: seq<State>, choices: seq<Choice>, i: nat)
    requires IsRun(states, choices) && i < |states|
    ensures StatusOf(states[i]) == Stopped
            <==> HolderAfter(states[0].recorded, choices[..i]) != Some(states[0].recorded)
                 || !ReadableAfter(choices[..i])
    ensures StatusOf(states[i]) == Stopped && ReadableAfter(choices[..i]) ==>
              Reap in choices[..i] && states[i].init.Dead?
    ensures Reap in choices[..i] && Recycle(states[0].recorded) !in choices[..i] ==> StatusOf(states[i]) == Stopped
  {
    HolderIsKnown(states, choices, i);
    ReadableIsKnown(states, choices, i);
  }

  /** Whether the cgroup is frozen after some choices: what the last freezing or thawing made of it. */
  predicate FrozenAfter(first: bool, choices: seq<Choice>) {
    if choices == [] then first
    else
      match choices[|choices| - 1]
      case Freeze(f) => f
      case _ => FrozenAfter(first, choices[..|choices| - 1])
  }

  lemma FrozenStep(s: State, choice: Choice, t: State)
    requires Step(s, choice) == Some(t)
    ensures t.frozen == if choice.Freeze? then choice.frozen else s.frozen
  {
    if choice.Call? { CallersKeepTheProcess(s, choice.caller); }
  }

  lemma {:induction false} FrozenIsKnown(states: seq<State>, choices: seq<Choice>, i: nat)
    requires IsRun(states, choices) && i < |states|
    ensures states[i].frozen == FrozenAfter(states[0].frozen, choices[..i])
  {
    if i > 0 {
      var j := i - 1;
      FrozenIsKnown(states, choices, j);
      RunHasStep(states, choices, j);
      FrozenStep(states[j], choices[j], states[i]);
      assert choices[..i][..j] == choices[..j] && choices[..i][j] == choices[j];
    }
  }

  /** Some call of start has succeeded. */
  ghost predicate Started(s: State) {
    exists k :: 0 <= k < |s.callers| && s.callers[k] == Done(true)
  }

  lemma StartedStep(s: State, choice: Choice, t: State)
    requires Step(s, choice) == Some(t) && (Started(s) <==> !s.linked)
    ensures Started(t) <==> !t.linked
  {
    match choice
    case Call(k) => CallKeepsStarted(s, k);
    case KillCaller(k) => OthersKeepStarted(s, t, k);
    case _ => assert t.callers == s.callers && t.linked == s.linked;
  }

  lemma OthersKeepStarted(s: State, t: State, k: nat)
    requires k < |s.callers| == |t.callers| && s.callers[k] != Done(true)
    requires forall j :: 0 <= j < |s.callers| && j != k ==> t.callers[j] == s.callers[j]
    ensures Started(t) <==> Started(s) || t.callers[k] == Done(true)
  {
    if Started(s) {
      var j :| 0 <= j < |s.callers| && s.callers[j] == Done(true);
      assert t.callers[j] == Done(true);
    }
    if Started(t) {
      var j :| 0 <= j < |t.callers| && t.callers[j] == Done(true);
      assert j != k ==> s.callers[j] == Done(true);
    }
  }

  lemma CallKeepsStarted(s: State, k: nat)
    requires k < |s.callers| && CallerStep(s, k).Some? && (Started(s) <==> !s.linked)
    ensures var t := CallerStep(s, k).value;
            Started(t) <==> !t.linked
  {
    var t := CallerStep(s, k).value;
    assert !s.callers[k].Done?;
    OthersKeepStarted(s, t, k);
  }

  /** The fifo is gone exactly if a call of start has succeeded. */
  lemma {:induction false} UnlinkedExactly(states: seq<State>, choices: seq<Choice>, i: nat)
    requires IsRun(states, choices) && i < |states|
    ensures !states[i].linked <==> Started(states[i])
  {
    if i > 0 {
      UnlinkedExactly(states, choices, i - 1);
      RunHasStep(states, choices, i - 1);
      StartedStep(states[i - 1], choices[i - 1], states[i]);
    }
  }

  /** Which status is reported, from what has happened: by the first read, whether the pid is found alive;
      by the second, what the last freezing made of the cgroup; by the third, whether a start has
      succeeded. A frozen container is Paused whether or not it was started. */
  lemma ObservedExactly(states: seq<State>, choices: seq<Choice>, i: nat, j: nat, k: nat)
    requires IsRun(states, choices) && i <= j <= k < |states|
    ensures var alive := HolderAfter(states[0].recorded, choices[..i]) == Some(states[0].recorded)
                         && ReadableAfter(choices[..i]);
            var frozen := FrozenAfter(states[0].frozen, choices[..j]);
            var status := Observed(states, i, j, k);
            && (status == Stopped <==> !alive)
            && (status == Paused <==> alive && frozen)
            && (status == Created <==> alive && !frozen && !Started(states[k]))
            && (status == Running <==> alive && !frozen && Started(states[k]))
  {
    HolderIsKnown(states, choices, i);
    ReadableIsKnown(states, choices, i);
    RunKeepsInv(states, choices, i);
    FrozenIsKnown(states, choices, j);
    UnlinkedExactly(states, choices, k);
  }

  /** Read at one moment it is the status of that state. */
  lemma StatusIsObserved(states: seq<State>, i: nat)
    requires i < |states|
    ensures StatusOf(states[i]) == Observed(states, i, i, i)
  {
  }

  // ----- a start only goes ahead from Created

  ghost predicate SawAlive(states: seq<State>, i: nat)
    requires i < |states|
  {
    exists a :: 0 <= a <= i && Alive(states[a])
  }

  ghost predicate SawThawed(states: seq<State>, i: nat)
    requires i < |states|
  {
    exists a, b :: 0 <= a <= b <= i && Alive(states[a]) && !states[b].frozen
  }

  ghost predicate SawCreated(states: seq<State>, i: nat)
    requires i < |states|
  {
    exists a, b, c :: 0 <= a <= b <= c <= i && Observed(states, a, b, c) == Created
  }

  ghost predicate Justified(states: seq<State>, i: nat, c: Caller)
    requires i < |states|
  {
    match c
    case Idle => true
    case SeenAlive => SawAlive(states, i)
    case SeenThawed => SawThawed(states, i)
    case Done(ok) => ok ==> SawCreated(states, i)
    case _ => SawCreated(states, i)
  }

  lemma JustifiedLater(states: seq<State>, i: nat, c: Caller)
    requires i + 1 < |states| && Justified(states, i, c)
    ensures Justified(states, i + 1, c)
  {
  }

  lemma CallJustifies(states: seq<State>, i: nat, k: nat)
    requires i + 1 < |states| && k < |states[i].callers| && Justified(states, i, states[i].callers[k])
    requires CallerStep(states[i], k) == Some(states[i + 1])
    ensures Justified(states, i + 1, states[i + 1].callers[k])
  {
    var c := states[i].callers[k];
    match c
    case Idle => assert Alive(states[i]) ==> SawAlive(states, i + 1);
    case SeenAlive =>
      var a :| 0 <= a <= i && Alive(states[a]);
      assert !states[i].frozen ==> SawThawed(states, i + 1);
    case SeenThawed =>
      var a, b :| 0 <= a <= b <= i && Alive(states[a]) && !states[b].frozen;
      assert states[i].linked ==> Observed(states, a, b, i) == Created;
    case _ => JustifiedLater(states, i, c);
  }

  lemma OtherCallersStay(s: State, choice: Choice, t: State, k: nat)
    requires Step(s, choice) == Some(t) && choice != Call(k) && k < |s.callers|
    ensures |t.callers| == |s.callers| && (t.callers[k] == s.callers[k] || t.callers[k] == Done(false))
  {
    match choice
    case Call(j) => OneCallerMoves(s, j);
    case KillCaller(j) =>
    case _ => assert t.callers == s.callers;
  }

  lemma OneCallerMoves(s: State, k: nat)
    requires k < |s.callers| && CallerStep(s, k).Some?
    ensures var t := CallerStep(s, k).value;
            |t.callers| == |s.callers| && t.callers == s.callers[k := t.callers[k]]
  {
  }

  /** A call of start that has come past its checks, in whatever state it is now, has observed Created. */
  lemma {:induction false} StartSawCreated(states: seq<State>, choices: seq<Choice>, i: nat, k: nat)
    requires IsRun(states, choices) && i < |states| && k < |states[i].callers|
    ensures Justified(states, i, states[i].callers[k])
  {
    if i > 0 {
      var j := i - 1;
      RunHasStep(states, choices, j);
      CallersStay(states[j], choices[j], states[i]);
      StartSawCreated(states, choices, j, k);
      if choices[j] == Call(k) {
        CallJustifies(states, j, k);
      } else {
        OtherCallersStay(states[j], choices[j], states[i], k);
        JustifiedLater(states, j, states[j].callers[k]);
      }
    }
  }

  lemma CallersStay(s: State, choice: Choice, t: State)
    requires Step(s, choice) == Some(t)
    ensures |t.callers| == |s.callers|
  {
    match choice
    case Call(k) => OneCallerMoves(s, k);
    case KillCaller(k) =>
    case _ => assert t.callers == s.callers;
  }

  /** Before the program is executed no name has changed, so there Stopped does mean the end. */
  lemma {:induction false} NamedByTheProgram(states: seq<State>, choices: seq<Choice>, i: nat)
    requires IsRun(states, choices) && i < |states|
    ensures !states[i].readable ==> states[i].init.Executed? || states[i].init.Dead?
  {
    if i > 0 {
      var j := i - 1;
      NamedByTheProgram(states, choices, j);
      RunHasStep(states, choices, j);
      ReadableStep(states[j], choices[j], states[i]);
      ExecutedStays(states[j], choices[j], states[i]);
    }
  }

  lemma ExecutedStays(s: State, choice: Choice, t: State)
    requires Step(s, choice) == Some(t)
    ensures s.init.Executed? || s.init.Dead? ==> t.init.Executed? || t.init.Dead?
    ensures choice.Rename? ==> t.init.Executed? || t.init.Dead?
  {
    if choice.Call? { CallersKeepTheProcess(s, choice.caller); }
  }

  // ----- a running container that is reported Stopped

  lemma RunGoesOn(states: seq<State>, choices: seq<Choice>, choice: Choice) returns (longer: seq<State>)
    requires IsRun(states, choices) && Step(states[|choices|], choice).Some?
    ensures longer == states + [Step(states[|choices|], choice).value]
    ensures IsRun(longer, choices + [choice])
  {
    longer := states + [Step(states[|choices|], choice).value];
    var more := choices + [choice];
    forall i | 0 <= i < |more| ensures Step(longer[i], more[i]) == Some(longer[i + 1]) {
      if i < |choices| {
        RunHasStep(states, choices, i);
      }
    }
  }

  /** Any run that has executed the program goes on like this: with one unreadable name the live container
      is Stopped, and with the next it is what it was. Nothing died and nothing was reaped. */
  lemma LiveContainerSeemsStopped(states: seq<State>, choices: seq<Choice>) returns (longer: seq<State>)
    requires IsRun(states, choices) && states[|choices|].init.Executed?
    ensures IsRun(longer, choices + [Rename(false), Rename(true)])
    ensures longer[|choices| + 1].init.Executed? && StatusOf(longer[|choices| + 1]) == Stopped
    ensures longer[|choices| + 2].init.Executed? && StatusOf(longer[|choices| + 2]) != Stopped
    ensures Reap !in choices + [Rename(false), Rename(true)]
  {
    RunKeepsInv(states, choices, |choices|);
    HolderIsKnown(states, choices, |choices|);
    assert choices[..|choices|] == choices;
    longer := RunGoesOn(states, choices, Rename(false));
    longer := RunGoesOn(longer, choices + [Rename(false)], Rename(true));
    assert choices + [Rename(false)] + [Rename(true)] == choices + [Rename(false), Rename(true)];
  }

  /** Such runs there are: one call of start and no fault. The call succeeds and the container runs. */
  lemma ProgramCanBeExecuted() returns (states: seq<State>, choices: seq<Choice>)
    ensures IsRun(states, choices) && states[|choices|].init.Executed?
    ensures states[|choices|].callers == [Done(true)] && StatusOf(states[|choices|]) == Running
  {
    var s := State([Idle], Parking, true, 0, 0, 0, 0, [], Some(0), 0, true, false);
    states, choices := [s], [];
    states, choices := Calls(states, choices, 4);
    assert states[|choices|] == s.(callers := [Found]);
    states, choices := OpenBoth(states, choices);
    states, choices := HandOver(states, choices);
    states, choices := TakeIt(states, choices);
  }

  /** The caller goes on while the init is still parking. */
  lemma {:induction false} Calls(states: seq<State>, choices: seq<Choice>, n: nat)
    returns (longer: seq<State>, more: seq<Choice>)
    requires n <= 4 && IsRun(states, choices)
    requires var s := states[|choices|];
             && s.init.Parking? && Alive(s) && !s.frozen && s.linked && s.buffered == s.readersEver == s.writersEver == 0
             && s.callers == [[Found, Checked, SeenThawed, SeenAlive, Idle][n]]
    ensures IsRun(longer, more) && longer[|more|] == states[|choices|].(callers := [Found])
    decreases n
  {
    longer, more := states, choices;
    if n > 0 {
      longer := RunGoesOn(states, choices, Call(0));
      more := choices + [Call(0)];
      longer, more := Calls(longer, more, n - 1);
    }
  }

  lemma OpenBoth(states: seq<State>, choices: seq<Choice>) returns (longer: seq<State>, more: seq<Choice>)
    requires IsRun(states, choices)
    requires var s := states[|choices|];
             && s.init.Parking? && s.linked && s.buffered == 0 && s.callers == [Found]
             && s.readersEver == s.writersEver == 0 && !s.frozen && Alive(s)
    ensures IsRun(longer, more)
    ensures var s := longer[|more|];
            && s.init.Writing? && s.linked && s.callers == [Caller.Opening(0)] && s.buffered == 0
            && s.writersEver == 1 && !s.frozen && Alive(s)
  {
    longer := RunGoesOn(states, choices, Call(0));
    more := choices + [Call(0)];
    assert longer[|more|].callers == [Caller.Opening(0)] && Reads(longer[|more|].callers[0]);
    longer := RunGoesOn(longer, more, Init(true));
    more := more + [Init(true)];
    assert longer[|more|].callers == [Caller.Opening(0)] && Reads(longer[|more|].callers[0]);
    longer := RunGoesOn(longer, more, Init(true));
    more := more + [Init(true)];
  }

  lemma HandOver(states: seq<State>, choices: seq<Choice>) returns (longer: seq<State>, more: seq<Choice>)
    requires IsRun(states, choices)
    requires var s := states[|choices|];
             && s.init.Writing? && s.linked && s.callers == [Caller.Opening(0)] && s.buffered == 0
             && s.writersEver == 1 && !s.frozen && Alive(s)
    ensures IsRun(longer, more)
    ensures var s := longer[|more|];
            && s.init.Executed? && s.linked && s.callers == [Caller.Opening(0)] && s.buffered == 1
            && s.writersEver == 1 && !s.frozen && Alive(s)
  {
    assert Reads(states[|choices|].callers[0]);
    longer := RunGoesOn(states, choices, Init(true));
    more := choices + [Init(true)];
    assert Reads(longer[|more|].callers[0]);
    longer := RunGoesOn(longer, more, Init(true));
    more := more + [Init(true)];
    longer := RunGoesOn(longer, more, Init(true));
    more := more + [Init(true)];
  }

  lemma TakeIt(states: seq<State>, choices: seq<Choice>) returns (longer: seq<State>, more: seq<Choice>)
    requires IsRun(states, choices)
    requires var s := states[|choices|];
             && s.init.Executed? && s.linked && s.callers == [Caller.Opening(0)] && s.buffered == 1
             && s.writersEver == 1 && !s.frozen && Alive(s)
    ensures IsRun(longer, more)
    ensures var s := longer[|more|];
            s.init.Executed? && s.callers == [Done(true)] && StatusOf(s) == Running
  {
    longer := RunGoesOn(states, choices, Call(0));
    more := choices + [Call(0)];
    assert longer[|more|].callers == [Open];
    longer := RunGoesOn(longer, more, Call(0));
    more := more + [Call(0)];
    assert longer[|more|].callers == [Got];
    longer := RunGoesOn(longer, more, Call(0));
    more := more + [Call(0)];
    assert longer[|more|].callers == [Done(true)];
  }
}
