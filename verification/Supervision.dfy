/** Waiting in the foreground for a container to exit (src/container/signal.rs,
    `block_forwardable` and `supervise`; the mask is installed in src/container/mod.rs `run` before
    the container is forked).

    A blocked signal stays pending until the supervisor takes it; a standard signal is pending at most
    once however often it arrives. A SIGCHLD that is not blocked is discarded: its default action is to
    be ignored. */
module Supervision {
  import opened Wrappers

  datatype Signal = Chld | Forwarded(number: nat)

  /** How a process ended. */
  datatype Exit = Exited(code: int) | Signaled(number: nat)

  /** Preparing is what comes before `supervise`: the mask, the fork, the create. */
  datatype Pc = Preparing | Waiting | Reaping | Returned(code: nat)

  datatype State = State(
    pc: Pc,
    masked: bool,               // the forwarded signals and SIGCHLD are blocked
    pending: set<Signal>,
    running: set<nat>,          // children that have not died, orphans handed to the subreaper included
    zombies: map<nat, Exit>,    // dead children that have not been reaped
    reaped: map<nat, Exit>,     // what waitpid has returned
    taken: seq<nat>,            // the forwarded signals the supervisor has dequeued, in order
    sent: seq<nat>,             // the signals it has sent to the init
    raised: seq<nat>)           // the forwarded signals that became pending, in order

  /** The supervisor starts with the mask in place: whatever died before has left SIGCHLD pending. */
  ghost predicate Start(s: State, init: nat) {
    && s.pc == Waiting && s.masked
    && (s.zombies != map[] ==> Chld in s.pending)
    && (init in s.running || init in s.zombies)
    && s.running !! s.zombies.Keys
    && s.reaped == map[] && s.taken == [] && s.sent == []
    && (forall n :: multiset(s.raised)[n] == if Forwarded(n) in s.pending then 1 else 0)
  }

  /** A process that has no children yet and nothing blocked. */
  const FRESH := State(Preparing, false, {}, {}, map[], map[], [], [], [])

  /** `code as u8`. */
  function LowByte(code: int): nat {
    code % 256
  }

  function ExitCode(e: Exit): nat {
    match e
    case Exited(code) => LowByte(code)
    case Signaled(number) => LowByte(128 + number)
  }

  /** What a caller may conclude from a code: an exit status is passed on, death by a signal gives 128 and
      the signal's number. */
  predicate Tells(code: nat, e: Exit) {
    && code < 256
    && (e.Exited? && 0 <= e.code < 256 ==> code == e.code)
    && (e.Signaled? && 0 < e.number < 128 ==> code == 128 + e.number)
  }

  /** An exit as the kernel reports it. */
  predicate IsReported(e: Exit) {
    match e
    case Exited(code) => 0 <= code < 256
    case Signaled(number) => 0 < number < 128
  }

  lemma CodeTells(e: Exit)
    ensures Tells(ExitCode(e), e)
  {
  }

  /** One code stands for two ways to end exactly when one is an exit with 128 and the number of the signal
      that is the other. */
  lemma CodeIsAmbiguousExactly(a: Exit, b: Exit)
    requires IsReported(a) && IsReported(b) && a != b
    ensures ExitCode(a) == ExitCode(b)
            <==> (a.Exited? && b.Signaled? && a.code == 128 + b.number)
                 || (a.Signaled? && b.Exited? && b.code == 128 + a.number)
  {
  }

  datatype Choice =
    | Block                       // block_forwardable
    | Collect(pid: nat)           // waitpid for one child by its pid, as for the intermediate
    | Enter                       // `supervise` begins
    | Dequeue(signal: Signal)     // sigwait returns one pending signal
    | Reap(pid: nat)              // waitpid(None, WNOHANG) returns one zombie
    | NothingDead                 // waitpid reports StillAlive or ECHILD
    | Dies(pid: nat, exit: Exit)
    | Arrives(number: nat)
    | Adopts(pid: nat)

  predicate Possible(s: State, choice: Choice) {
    match choice
    case Block => s.pc.Preparing?
    case Collect(pid) => s.pc.Preparing? && pid in s.zombies
    case Enter => s.pc.Preparing?
    case Dequeue(signal) => s.pc.Waiting? && signal in s.pending
    case Reap(pid) => s.pc.Reaping? && pid in s.zombies
    case NothingDead => s.pc.Reaping? && s.zombies == map[]
    case Dies(pid, _) => pid in s.running
    case Arrives(_) => s.masked   // otherwise it is not the supervisor's to forward
    case Adopts(pid) => pid !in s.running && pid !in s.zombies
  }

  function Step(s: State, init: nat, choice: Choice): State
    requires Possible(s, choice)
  {
    match choice
    case Block => s.(masked := true)
    case Collect(pid) => s.(zombies := s.zombies - {pid})
    case Enter => s.(pc := Waiting)
    case Dequeue(Chld) => s.(pc := Reaping, pending := s.pending - {Chld})
    case Dequeue(Forwarded(n)) =>
      s.(pending := s.pending - {Forwarded(n)}, taken := s.taken + [n], sent := s.sent + [n])
    case Reap(pid) =>
      var next := s.(zombies := s.zombies - {pid}, reaped := s.reaped[pid := s.zombies[pid]]);
      if pid == init then next.(pc := Returned(ExitCode(s.zombies[pid]))) else next
    case NothingDead => s.(pc := Waiting)
    case Dies(pid, exit) =>
      s.(running := s.running - {pid}, zombies := s.zombies[pid := exit],
          pending := if s.masked then s.pending + {Chld} else s.pending)
    case Arrives(n) =>
      if Forwarded(n) in s.pending then s
      else s.(pending := s.pending + {Forwarded(n)}, raised := s.raised + [n])
    case Adopts(pid) => s.(running := s.running + {pid})
  }

  /** The state a run of possible choices leads to. */
  function Run(s: State, init: nat, choices: seq<Choice>): Option<State> {
    if choices == [] then Some(s)
    else
      match Run(s, init, choices[..|choices| - 1])
      case None => None
      case Some(t) =>
        var last := choices[|choices| - 1];
        if Possible(t, last) then Some(Step(t, init, last)) else None
  }

  predicate OfSupervisor(choice: Choice) {
    !choice.Dies? && !choice.Arrives? && !choice.Adopts?
  }

  // ----- the invariant

  ghost predicate Accounted(s: State, n: nat) {
    multiset(s.raised)[n] == multiset(s.taken)[n] + if Forwarded(n) in s.pending then 1 else 0
  }

  ghost predicate Inv(s: State, init: nat) {
    && s.masked && !s.pc.Preparing?
    && s.running !! s.zombies.Keys
    && (s.pc.Waiting? && s.zombies != map[] ==> Chld in s.pending)
    && (!s.pc.Returned? ==> init in s.running || init in s.zombies)
    && (s.pc.Returned? ==> init in s.reaped && s.pc.code == ExitCode(s.reaped[init]))
    && s.sent == s.taken
  }

  lemma StepKeepsInv(s: State, init: nat, choice: Choice)
    requires Inv(s, init) && Possible(s, choice)
    ensures Inv(Step(s, init, choice), init)
  {
  }

  lemma StepKeepsAccount(s: State, init: nat, choice: Choice, n: nat)
    requires Accounted(s, n) && Possible(s, choice)
    ensures Accounted(Step(s, init, choice), n)
  {
    var t := Step(s, init, choice);
    match choice
    case Dequeue(Forwarded(m)) => assert t.taken == s.taken + [m] && t.raised == s.raised;
    case Arrives(m) => assert t.taken == s.taken && (t.raised == s.raised || t.raised == s.raised + [m]);
    case _ => assert t.taken == s.taken && t.raised == s.raised;
  }

  lemma {:induction false} RunKeepsAccount(s: State, init: nat, choices: seq<Choice>, n: nat)
    requires Accounted(s, n) && Run(s, init, choices).Some?
    ensures Accounted(Run(s, init, choices).value, n)
  {
    if choices != [] {
      var before := choices[..|choices| - 1];
      RunKeepsAccount(s, init, before, n);
      StepKeepsAccount(Run(s, init, before).value, init, choices[|choices| - 1], n);
    }
  }

  lemma {:induction false} RunKeepsInv(s: State, init: nat, choices: seq<Choice>)
    requires Inv(s, init) && Run(s, init, choices).Some?
    ensures Inv(Run(s, init, choices).value, init)
  {
    if choices != [] {
      var before := choices[..|choices| - 1];
      RunKeepsInv(s, init, before);
      StepKeepsInv(Run(s, init, before).value, init, choices[|choices| - 1]);
    }
  }

  // ----- main results

  /** In every run: a dead child that was not reaped has SIGCHLD pending whenever the outer loop
      waits; the supervisor returns only what the reaped init's status says; and every forwarded
      signal that became pending was sent to the init exactly once or is still pending. */
  lemma ExitIsNeverLost(start: State, init: nat, choices: seq<Choice>, n: nat)
    requires Start(start, init) && Run(start, init, choices).Some?
    ensures var s := Run(start, init, choices).value;
            && (s.pc.Waiting? && s.zombies != map[] ==> Chld in s.pending)
            && (s.pc.Returned? ==> init in s.reaped && Tells(s.pc.code, s.reaped[init]))
            && (!s.pc.Returned? ==> init in s.running || init in s.zombies)
            && multiset(s.raised)[n] == multiset(s.sent)[n] + if Forwarded(n) in s.pending then 1 else 0
  {
    RunKeepsInv(start, init, choices);
    RunKeepsAccount(start, init, choices, n);
    if init in Run(start, init, choices).value.reaped { CodeTells(Run(start, init, choices).value.reaped[init]); }
  }

  lemma SupervisorStep(s: State, init: nat, choice: Choice)
    requires Inv(s, init) && init in s.zombies && !s.pc.Returned?
    requires OfSupervisor(choice) && Possible(s, choice)
    ensures var t := Step(s, init, choice);
            && |t.pending| + |t.zombies| < |s.pending| + |s.zombies|
            && (t.pc.Returned? ==> t.pc.code == ExitCode(s.zombies[init]))
            && (!t.pc.Returned? ==> init in t.zombies && t.zombies[init] == s.zombies[init])
  {
    match choice
    case Reap(pid) =>
      assert (s.zombies - {pid}).Keys == s.zombies.Keys - {pid};
      assert |(s.zombies - {pid}).Keys| == |s.zombies.Keys| - 1;
      assert |s.zombies - {pid}| == |(s.zombies - {pid}).Keys| && |s.zombies| == |s.zombies.Keys|;
    case _ =>
  }

  lemma SupervisorIsNeverStuck(s: State, init: nat)
    requires Inv(s, init) && init in s.zombies && !s.pc.Returned?
    ensures exists choice :: OfSupervisor(choice) && Possible(s, choice)
  {
    if s.pc.Waiting? {
      assert Possible(s, Dequeue(Chld));
    } else {
      assert Possible(s, Reap(init));
    }
  }

  /** Once the init is dead the supervisor, left alone, returns with its status, whichever pending
      signal and whichever zombie the kernel hands out first. */
  lemma {:induction false} DeathIsReported(s: State, init: nat, choices: seq<Choice>)
    requires Inv(s, init) && init in s.zombies && !s.pc.Returned?
    requires Run(s, init, choices).Some? && forall c :: c in choices ==> OfSupervisor(c)
    ensures var t := Run(s, init, choices).value;
            && |choices| <= |s.pending| + |s.zombies|
            && (t.pc.Returned? ==> Tells(t.pc.code, s.zombies[init]))
            && ((forall c :: OfSupervisor(c) ==> !Possible(t, c)) ==> t.pc.Returned?)
  {
    RunShrinks(s, init, choices);
    RunKeepsInv(s, init, choices);
    CodeTells(s.zombies[init]);
    var t := Run(s, init, choices).value;
    if !t.pc.Returned? {
      SupervisorIsNeverStuck(t, init);
    }
  }

  lemma {:induction false} RunShrinks(s: State, init: nat, choices: seq<Choice>)
    requires Inv(s, init) && init in s.zombies && !s.pc.Returned?
    requires Run(s, init, choices).Some? && forall c :: c in choices ==> OfSupervisor(c)
    ensures var t := Run(s, init, choices).value;
            && |t.pending| + |t.zombies| + |choices| <= |s.pending| + |s.zombies|
            && (t.pc.Returned? ==> t.pc.code == ExitCode(s.zombies[init]))
            && (!t.pc.Returned? ==> init in t.zombies && t.zombies[init] == s.zombies[init])
  {
    if choices != [] {
      var before, last := choices[..|choices| - 1], choices[|choices| - 1];
      assert last in choices;
      RunShrinks(s, init, before);
      RunKeepsInv(s, init, before);
      SupervisorStep(Run(s, init, before).value, init, last);
    }
  }

  // ----- the mask

  /** Some child died while SIGCHLD was blocked. */
  predicate DiedMasked(choices: seq<Choice>) {
    exists i :: 0 <= i < |choices| && choices[i].Dies? && Block in choices[..i]
  }

  /** The order of `run`: the mask is installed before there is a child that can die. */
  predicate MaskedFirst(choices: seq<Choice>) {
    forall i :: 0 <= i < |choices| && choices[i].Dies? ==> Block in choices[..i]
  }

  lemma DiedMaskedSnoc(choices: seq<Choice>, c: Choice)
    ensures DiedMasked(choices + [c]) <==> DiedMasked(choices) || (c.Dies? && Block in choices)
  {
    var longer := choices + [c];
    assert forall i :: 0 <= i <= |choices| ==> longer[..i] == choices[..i];
    assert choices[..|choices|] == choices;
    if DiedMasked(choices) {
      var i :| 0 <= i < |choices| && choices[i].Dies? && Block in choices[..i];
      assert longer[i].Dies? && Block in longer[..i];
    }
    if c.Dies? && Block in choices {
      assert longer[|choices|].Dies? && Block in longer[..|choices|];
    }
  }

  /** Whether SIGCHLD is pending, from what has happened. */
  ghost predicate Masking(s: State, init: nat, choices: seq<Choice>) {
    && (s.masked <==> Block in choices)
    && (!s.masked ==> Chld !in s.pending && !DiedMasked(choices))
    && (s.pc.Preparing? || (s.pc.Waiting? && init in s.zombies) ==> (Chld in s.pending <==> DiedMasked(choices)))
  }

  lemma StepKeepsMasking(s: State, init: nat, before: seq<Choice>, choice: Choice)
    requires Masking(s, init, before) && Possible(s, choice)
    ensures Masking(Step(s, init, choice), init, before + [choice])
  {
    DiedMaskedSnoc(before, choice);
  }

  lemma {:induction false} RunKeepsMasking(init: nat, choices: seq<Choice>)
    requires Run(FRESH, init, choices).Some?
    ensures Masking(Run(FRESH, init, choices).value, init, choices)
  {
    if choices != [] {
      var before, last := choices[..|choices| - 1], choices[|choices| - 1];
      RunKeepsMasking(init, before);
      StepKeepsMasking(Run(FRESH, init, before).value, init, before, last);
      assert choices == before + [last];
    }
  }

  /** Whatever the order of mask and deaths: a supervisor that waits with the init dead and unreaped
      has no SIGCHLD to wake it if and only if no child died while the mask was in place. */
  lemma ExitIsLostExactly(init: nat, choices: seq<Choice>)
    requires Run(FRESH, init, choices).Some?
    requires var s := Run(FRESH, init, choices).value;
             s.pc.Waiting? && init in s.zombies
    ensures Chld !in Run(FRESH, init, choices).value.pending <==> !DiedMasked(choices)
  {
    RunKeepsMasking(init, choices);
  }

  /** And a lost exit stays lost until another child dies. */
  lemma {:induction false} LostStaysLost(s: State, init: nat, choices: seq<Choice>)
    requires s.pc.Waiting? && init in s.zombies && Chld !in s.pending
    requires Run(s, init, choices).Some? && forall c :: c in choices ==> !c.Dies?
    ensures var t := Run(s, init, choices).value;
            t.pc.Waiting? && init in t.zombies && Chld !in t.pending
  {
    if choices != [] {
      var before, last := choices[..|choices| - 1], choices[|choices| - 1];
      LostStaysLost(s, init, before);
      assert last in choices;
    }
  }

  /** What holds until `supervise` begins. */
  ghost predicate Prepared(s: State, choices: seq<Choice>) {
    && (s.zombies != map[] ==> exists i :: 0 <= i < |choices| && choices[i].Dies?)
    && (s.pc.Preparing? ==>
          && s.running !! s.zombies.Keys
          && s.reaped == map[] && s.taken == [] && s.sent == []
          && forall n :: multiset(s.raised)[n] == if Forwarded(n) in s.pending then 1 else 0)
  }

  lemma StepKeepsPrepared(s: State, init: nat, before: seq<Choice>, choice: Choice)
    requires Prepared(s, before) && Possible(s, choice)
    ensures Prepared(Step(s, init, choice), before + [choice])
  {
    var longer := before + [choice];
    if i :| 0 <= i < |before| && before[i].Dies? {
      assert longer[i].Dies?;
    }
    assert longer[|before|] == choice;
    var t := Step(s, init, choice);
    if choice.Arrives? && Forwarded(choice.number) !in s.pending {
      assert t.raised == s.raised + [choice.number];
    } else {
      assert t.raised == s.raised;
    }
  }

  lemma {:induction false} RunKeepsPrepared(init: nat, choices: seq<Choice>)
    requires Run(FRESH, init, choices).Some?
    ensures Prepared(Run(FRESH, init, choices).value, choices)
  {
    if choices != [] {
      var before, last := choices[..|choices| - 1], choices[|choices| - 1];
      RunKeepsPrepared(init, before);
      StepKeepsPrepared(Run(FRESH, init, before).value, init, before, last);
      assert choices == before + [last];
    }
  }

  /** With the mask installed first, `supervise` begins where no exit has been lost. */
  lemma MaskedFirstLosesNothing(init: nat, choices: seq<Choice>)
    requires Run(FRESH, init, choices).Some? && MaskedFirst(choices) && Block in choices
    requires var s := Run(FRESH, init, choices).value;
             s.pc.Preparing? && (init in s.running || init in s.zombies)
    ensures Start(Step(Run(FRESH, init, choices).value, init, Enter), init)
  {
    RunKeepsMasking(init, choices);
    RunKeepsPrepared(init, choices);
    var s := Run(FRESH, init, choices).value;
    if s.zombies != map[] {
      var i :| 0 <= i < |choices| && choices[i].Dies?;
      assert DiedMasked(choices);
    }
  }

  // ----- the loop itself

  lemma DequeueTakesOne(s: State, init: nat, signal: Signal)
    requires Possible(s, Dequeue(signal))
    ensures var t := Step(s, init, Dequeue(signal));
            |t.pending| < |s.pending| && t.pc == if signal.Chld? then Reaping else Waiting
  {
    assert |s.pending - {signal}| < |s.pending|;
  }

  lemma ReapTakesOne(s: State, init: nat, pid: nat)
    requires Possible(s, Reap(pid))
    ensures var t := Step(s, init, Reap(pid));
            && |t.zombies| < |s.zombies| && t.pending == s.pending
            && t.pc == if pid == init then Returned(ExitCode(s.zombies[pid])) else Reaping
  {
    assert (s.zombies - {pid}).Keys == s.zombies.Keys - {pid};
    assert |s.zombies.Keys - {pid}| < |s.zombies.Keys|;
  }

  /** The kernel as the supervisor's calls meet it. What happens meanwhile comes in batches, one
      before each call; the supervisor's own steps in a batch are left out. */
  class Host {
    const init: nat
    ghost const start: State
    ghost var made: seq<Choice>          // what has happened, the supervisor's calls included
    var s: State
    var future: seq<seq<Choice>>

    ghost predicate Valid()
      reads this
    {
      Start(start, init) && Run(start, init, made) == Some(s)
    }

    constructor (init: nat, s: State, future: seq<seq<Choice>>)
      requires Start(s, init)
      ensures Valid() && this.init == init && start == s == this.s && made == [] && this.future == future
    {
      this.init, this.s, this.start, this.future, this.made := init, s, s, future, [];
    }

    method Do(choice: Choice)
      requires Valid() && Possible(s, choice)
      modifies this`s, this`made
      ensures Valid() && s == Step(old(s), init, choice) && made == old(made) + [choice]
    {
      assert (made + [choice])[..|made|] == made;
      made := made + [choice];
      s := Step(s, init, choice);
    }

    method Happen()
      requires Valid()
      modifies this
      ensures Valid() && s.pc == old(s).pc
      ensures old(future) == [] ==> future == [] && s == old(s)
      ensures old(future) != [] ==> future == old(future)[1..]
    {
      if future == [] {
        return;
      }
      var batch := future[0];
      future := future[1..];
      for i := 0 to |batch|
        invariant Valid() && s.pc == old(s).pc
        invariant future == old(future)[1..]
      {
        if !OfSupervisor(batch[i]) && Possible(s, batch[i]) {
          Do(batch[i]);
        }
      }
    }

    /** sigwait: None while nothing is pending. */
    method Wait() returns (signal: Option<Signal>)
      requires Valid() && s.pc.Waiting?
      modifies this
      ensures Valid()
      ensures old(future) == [] ==> future == []
      ensures old(future) != [] ==> future == old(future)[1..]
      ensures signal.Some? ==> s.pc == if signal.value.Chld? then Reaping else Waiting
      ensures signal.None? ==> s.pc.Waiting? && s.pending == {}
      ensures old(future) == [] && signal.Some? ==> |s.pending| < |old(s).pending|
    {
      Happen();
      if s.pending == {} {
        return None;
      }
      var one :| one in s.pending;
      DequeueTakesOne(s, init, one);
      Do(Dequeue(one));
      signal := Some(one);
    }

    /** waitpid(None, WNOHANG). */
    method WaitAnyChild() returns (child: Option<(nat, Exit)>)
      requires Valid() && s.pc.Reaping?
      modifies this
      ensures Valid()
      ensures old(future) == [] ==> future == [] && s.pending == old(s).pending
      ensures old(future) != [] ==> future == old(future)[1..]
      ensures child.None? ==> s.pc.Waiting?
      ensures child.Some? ==> s.pc == if child.value.0 == init then Returned(ExitCode(child.value.1)) else Reaping
      ensures old(future) == [] && child.Some? ==> |s.zombies| < |old(s).zombies|
    {
      Happen();
      if s.zombies == map[] {
        Do(NothingDead);
        return None;
      }
      var pid :| pid in s.zombies;
      child := Some((pid, s.zombies[pid]));
      ReapTakesOne(s, init, pid);
      Do(Reap(pid));
    }

    /** The inner loop: reap until the init was among the reaped or nobody is left. */
    method Drain() returns (code: Option<nat>)
      requires Valid() && s.pc.Reaping?
      modifies this
      ensures Valid()
      ensures code.Some? ==> s.pc == Returned(code.value)
      ensures code.None? ==> s.pc.Waiting?
      ensures |future| <= |old(future)|
      ensures old(future) == [] ==> s.pending == old(s).pending
    {
      while true
        invariant Valid() && s.pc.Reaping?
        invariant |future| <= |old(future)|
        invariant old(future) == [] ==> s.pending == old(s).pending
        decreases |future|, |s.zombies|
      {
        var child := WaitAnyChild();
        if child.None? {
          return None;
        }
        if child.value.0 == init {
          return Some(ExitCode(child.value.1));
        }
      }
    }

    /** `supervise`: every execution of the two loops is a run. It returns the init's own code, and
        as long as it has not returned with nothing left to come, the init has not died. */
    method Supervise() returns (code: Option<nat>)
      requires Valid() && s.pc.Waiting?
      modifies this
      ensures Valid()
      ensures code.Some? ==> s.pc == Returned(code.value) && init in s.reaped && Tells(code.value, s.reaped[init])
      ensures code.None? ==> future == [] && init in s.running
      ensures s.sent == s.taken
    {
      while true
        invariant Valid() && s.pc.Waiting?
        decreases |future|, |s.pending|
      {
        var blocked := future == [];
        var signal := Wait();
        if signal.None? {
          if blocked {
            RunKeepsInv(start, init, made);
            return None;
          }
          continue;
        }
        if signal.value != Chld {
          continue;
        }
        code := Drain();
        if code.Some? {
          RunKeepsInv(start, init, made);
          CodeTells(s.reaped[init]);
          return;
        }
      }
    }
  }
}
