/** The `create` command as three processes that share one packet channel:
    the parent (src/container/mod.rs), the intermediate and the container init
    (src/container/init.rs). The intermediate and the init hold the same end of the
    channel (src/sync.rs), so a packet sent to one could be read by the other.

    A run is a list of choices: which process moves, and whether the kernel step it
    makes succeeds. Signals from outside may kill either child at any moment. */
module CreateProtocol {
  import opened Wrappers

  /** Whether the leaf's own freezer is on, and whether that of a cgroup above it is. */
  datatype Freezer = Freezer(own: bool, above: bool)

  /** What the bundle asks for, the identity the kernel gives to the init, and what is there before: the
      leaf may exist, hold other processes, and be frozen. The bundle's own resources may name any file
      of the cgroup tree, cgroup.freeze included, here and above. */
  datatype Config = Config(
    userNamespace: bool, cgroupNamespace: bool, mountNamespace: bool,
    initPid: nat, initStart: nat,
    existed: bool, others: bool, found: Freezer,
    writesOwn: Option<bool>, writesAbove: Option<bool>)

  predicate Others(c: Config) {
    c.existed && c.others
  }

  /** The freezers as create finds them; a leaf it has to make is not frozen itself. */
  function FreezerFound(c: Config): Freezer {
    Freezer(c.existed && c.found.own, c.found.above)
  }

  /** And after the bundle's resources have been written. */
  function FreezerAfter(c: Config): Freezer {
    Freezer(if c.writesOwn.Some? then c.writesOwn.value else FreezerFound(c).own,
            if c.writesAbove.Some? then c.writesAbove.value else FreezerFound(c).above)
  }

  /** What a caller can tell from the bundle and the cgroup tree before the call. */
  predicate WillFreeze(c: Config) {
    FreezerAfter(c).own || FreezerAfter(c).above
  }

  datatype Sender = FromMiddle | FromInit

  datatype Message =
    | RequestUserMapping
    | UserMappingDone
    | InitPid(pid: nat)
    | CgroupApplied(pid: nat)
    | InitReady
    | Failed

  datatype Packet = Packet(sender: Sender, message: Message)

  datatype Record = Record(pid: nat, startTime: nat)

  datatype ParentPc =
    | Planning | CreatingCgroup | ApplyingLimits | MakingFifo | PermittingFifo | Preparing | Forking
    | AwaitFirst | WritingMappings | SendingMappingDone | AwaitPid
    | Reaping | Attaching | Prestart | CreateRuntime | SendingApplied
    | AwaitReady | ReadingStartTime | SavingState | WritingPidFile
    | RemovingFifo | KillingMembers | AwaitingEmpty | DestroyingCgroup | RemovingDir
    | Returned(ok: bool)
    | Confused

  datatype MiddlePc =
    | NotForked | Joining | Requesting | AwaitMapping | BecomingRoot
    | ForkingInit | SendingPid | Failing | Exiting | Gone | Confused

  datatype InitPc =
    | NotForked | AwaitAttach | UnsharingCgroup | MountingRootfs | ContainerHooks | Pivoting
    | Settling | SendingReady | Parked | StartHooks | Executing | Executed
    | Failing | Exiting | Gone | Confused

  /** Steps whose order the documentation promises. */
  datatype Event =
    | Attached | PrestartHooksRan | CreateRuntimeHooksRan
    | CgroupUnshared | RootfsMounted | CreateContainerHooksRan | RootPivoted
    | ReadySent | StartContainerHooksRan | ProgramExecuted

  /** The packets in flight. The parent reads `toParent`; either child can read `toChildren`. */
  datatype Wire = Wire(toParent: seq<Packet>, toChildren: seq<Message>)

  /** The leaf cgroup: whether it exists, whether the init is a member, and what rollback did to it. */
  datatype Leaf = Leaf(present: bool, member: bool, killed: bool, unread: bool, stuck: bool)

  /** The container directory, the fifo and the record in it, and whether removing it failed. */
  datatype Disk = Disk(dir: bool, fifo: bool, record: Option<Record>, stuck: bool)

  /** What the parent has read and sent, whether a start opened the fifo, and the logged steps. */
  datatype History = History(tookPid: bool, applied: bool, released: bool, log: seq<Event>)

  /** Whether the parent has written the mappings and the pid file, and the intermediate has made its joins
      and namespaces and become root in them. */
  datatype Deeds = Deeds(mapped: bool, named: bool, isolated: bool, rooted: bool)

  /** Whether `Cgroup::create` returned Ok, whether rollback listed and killed the members of the leaf,
      and the freezers. */
  datatype Around = Around(made: bool, listed: bool, freezer: Freezer)

  datatype State = State(
    parent: ParentPc, middle: MiddlePc, init: InitPc,
    wire: Wire, leaf: Leaf, disk: Disk, past: History, around: Around, deeds: Deeds)

  /** State when the container directory has just been made. */
  function Start(c: Config): State {
    State(Planning, MiddlePc.NotForked, InitPc.NotForked, Wire([], []),
          Leaf(c.existed, false, false, false, false), Disk(true, false, None, false),
          History(false, false, false, []), Around(false, false, FreezerFound(c)),
          Deeds(false, false, false, false))
  }

  datatype Choice =
    | Parent(ok: bool) | Middle(ok: bool) | Init(ok: bool)
    | KillMiddle | KillInit | Release

  // ----- places in the code, in program order

  function ParentRank(p: ParentPc): nat {
    match p
    case Planning => 0
    case CreatingCgroup => 1
    case ApplyingLimits => 2
    case MakingFifo => 3
    case PermittingFifo => 4
    case Preparing => 5
    case Forking => 6
    case AwaitFirst => 7
    case WritingMappings => 8
    case SendingMappingDone => 9
    case AwaitPid => 10
    case Reaping => 11
    case Attaching => 12
    case Prestart => 13
    case CreateRuntime => 14
    case SendingApplied => 15
    case AwaitReady => 16
    case ReadingStartTime => 17
    case SavingState => 18
    case WritingPidFile => 19
    case RemovingFifo => 20
    case KillingMembers => 21
    case AwaitingEmpty => 22
    case DestroyingCgroup => 23
    case RemovingDir => 24
    case Returned(_) => 25
    case Confused => 26
  }

  function MiddleRank(p: MiddlePc): nat {
    match p
    case NotForked => 0
    case Joining => 1
    case Requesting => 2
    case AwaitMapping => 3
    case BecomingRoot => 4
    case ForkingInit => 5
    case SendingPid => 6
    case Failing => 7
    case Exiting => 8
    case Gone => 9
    case Confused => 10
  }

  function InitRank(p: InitPc): nat {
    match p
    case NotForked => 0
    case AwaitAttach => 1
    case UnsharingCgroup => 2
    case MountingRootfs => 3
    case ContainerHooks => 4
    case Pivoting => 5
    case Settling => 6
    case SendingReady => 7
    case Parked => 8
    case StartHooks => 9
    case Executing => 10
    case Executed => 11
    case Failing => 12
    case Exiting => 13
    case Gone => 14
    case Confused => 15
  }

  function When(condition: bool, e: Event): seq<Event> { if condition then [e] else [] }

  // ----- the channel

  /** From the fork until `spawn` returns, rollback included. */
  predicate ParentEndOpen(s: State) {
    7 <= ParentRank(s.parent) <= 22
  }

  predicate InitAlive(s: State) {
    !s.init.NotForked? && !s.init.Gone?
  }

  /** Both holders of the child end have closed it; `execve` closes the init's copy. */
  predicate ChildEndClosed(s: State) {
    s.middle.Gone? && (s.init.NotForked? || s.init.Gone? || s.init.Executed?)
  }

  /** A read takes the first packet when there is one, fails once the other end is closed, and
      blocks otherwise. A closed end can also turn a waiting packet into a reset. */
  datatype Read<T> = Blocks | Fails | Takes(value: T)

  function ParentRead(s: State, ok: bool): Read<Message> {
    if s.wire.toParent != [] && ok then Takes(s.wire.toParent[0].message)
    else if ChildEndClosed(s) then Fails
    else Blocks
  }

  function ChildRead(s: State, ok: bool): Read<Message> {
    if s.wire.toChildren != [] && ok then Takes(s.wire.toChildren[0])
    else if !ParentEndOpen(s) then Fails
    else Blocks
  }

  function Put(w: Wire, p: Packet): Wire {
    w.(toParent := w.toParent + [p])
  }

  // ----- the parent: where it goes, and what that changes

  predicate ParentReads(p: ParentPc) {
    p.AwaitFirst? || p.AwaitPid? || p.AwaitReady?
  }

  /** Where the parent goes next; None while it blocks. */
  function ParentGoes(s: State, ok: bool): Option<ParentPc> {
    match s.parent
    case Planning => Some(if ok then CreatingCgroup else RemovingDir)
    case CreatingCgroup => Some(if ok then ApplyingLimits else RemovingDir)
    case ApplyingLimits => Some(if ok then MakingFifo else DestroyingCgroup)
    case MakingFifo => Some(if ok then PermittingFifo else DestroyingCgroup)
    case PermittingFifo => Some(if ok then Preparing else DestroyingCgroup)
    case Preparing => Some(if ok then Forking else DestroyingCgroup)
    case Forking => Some(if ok then AwaitFirst else DestroyingCgroup)
    case AwaitFirst => (
      match ParentRead(s, ok)
      case Blocks => None
      case Fails => Some(RemovingFifo)
      case Takes(m) => Some(if m.RequestUserMapping? then WritingMappings else AfterInitPid(m)))
    case WritingMappings => Some(if ok then SendingMappingDone else RemovingFifo)
    case SendingMappingDone => Some(if ok && !ChildEndClosed(s) then AwaitPid else RemovingFifo)
    case AwaitPid => (
      match ParentRead(s, ok)
      case Blocks => None
      case Fails => Some(RemovingFifo)
      case Takes(m) => Some(AfterInitPid(m)))
    case Reaping =>
      if s.middle.Gone? then Some(if ok then Attaching else RemovingFifo) else None
    case Attaching => Some(if ok then Prestart else RemovingFifo)
    case Prestart => Some(if ok then CreateRuntime else RemovingFifo)
    case CreateRuntime => Some(if ok then SendingApplied else RemovingFifo)
    case SendingApplied => Some(if ok && !ChildEndClosed(s) then AwaitReady else RemovingFifo)
    case AwaitReady => (
      match ParentRead(s, ok)
      case Blocks => None
      case Fails => Some(RemovingFifo)
      case Takes(m) =>
        Some(if m.InitReady? then ReadingStartTime
             else if m.Failed? then RemovingFifo else ParentPc.Confused))
    case ReadingStartTime => Some(if ok then SavingState else RemovingFifo)
    case SavingState => Some(if ok then WritingPidFile else RemovingFifo)
    case WritingPidFile => Some(if ok then Returned(true) else RemovingFifo)
    case RemovingFifo => Some(KillingMembers)
    case KillingMembers => Some(AwaitingEmpty)
    case AwaitingEmpty =>
      // a signalled member is waited for; if nothing was signalled the polls run out
      if ok && s.leaf.member && s.leaf.killed then None else Some(DestroyingCgroup)
    case DestroyingCgroup => Some(RemovingDir)
    case RemovingDir => Some(Returned(false))
    case Returned(_) => None
    case Confused => None
  }

  /** The three arms of `handshake` for the message that should be InitPid. */
  function AfterInitPid(m: Message): ParentPc {
    if m.InitPid? then Reaping else if m.Failed? then RemovingFifo else ParentPc.Confused
  }

  function ParentWire(c: Config, s: State, ok: bool): Wire {
    if ParentReads(s.parent) && ok && s.wire.toParent != [] then
      s.wire.(toParent := s.wire.toParent[1..])
    else if s.parent.SendingMappingDone? && ok && !ChildEndClosed(s) then
      s.wire.(toChildren := s.wire.toChildren + [UserMappingDone])
    else if s.parent.SendingApplied? && ok && !ChildEndClosed(s) then
      s.wire.(toChildren := s.wire.toChildren + [CgroupApplied(c.initPid)])
    else s.wire
  }

  function ParentLeaf(c: Config, s: State, ok: bool): Leaf {
    match s.parent
    case CreatingCgroup => s.leaf.(present := s.leaf.present || ok)
    case Attaching => s.leaf.(member := ok && InitAlive(s))
    case KillingMembers =>
      if ok then s.leaf.(killed := s.leaf.killed || s.leaf.member) else s.leaf.(unread := true)
    case AwaitingEmpty => s.leaf.(unread := s.leaf.unread || !ok)
    case DestroyingCgroup =>
      if ok && !s.leaf.member && !OthersLeft(c, s) then s.leaf.(present := false) else s.leaf.(stuck := true)
    case _ => s.leaf
  }

  /** Processes that were in the leaf before and have not been killed by the rollback. */
  predicate OthersLeft(c: Config, s: State) {
    Others(c) && !s.around.listed
  }

  /** A failure while the resources are written is followed by no init. */
  function ParentAround(c: Config, s: State, ok: bool): Around {
    if !ok then s.around
    else
      match s.parent
      case CreatingCgroup => s.around.(made := true)
      case ApplyingLimits => s.around.(freezer := FreezerAfter(c))
      case KillingMembers => s.around.(listed := true)
      case _ => s.around
  }

  function ParentDisk(c: Config, s: State, ok: bool): Disk {
    match s.parent
    case MakingFifo => s.disk.(fifo := ok)
    case SavingState =>
      if ok then s.disk.(record := Some(Record(c.initPid, c.initStart))) else s.disk
    case RemovingFifo => s.disk.(fifo := s.disk.fifo && !ok)
    case RemovingDir => if ok then Disk(false, false, None, false) else s.disk.(stuck := true)
    case _ => s.disk
  }

  function ParentHistory(s: State, ok: bool): History {
    match s.parent
    case AwaitFirst | AwaitPid =>
      var read := ParentRead(s, ok);
      s.past.(tookPid := s.past.tookPid || (read.Takes? && read.value.InitPid?))
    case Attaching => s.past.(log := s.past.log + When(ok, Attached))
    case Prestart => s.past.(log := s.past.log + When(ok, PrestartHooksRan))
    case CreateRuntime => s.past.(log := s.past.log + When(ok, CreateRuntimeHooksRan))
    case SendingApplied => s.past.(applied := s.past.applied || (ok && !ChildEndClosed(s)))
    case _ => s.past
  }

  function ParentDeeds(s: State, ok: bool): Deeds {
    match s.parent
    case WritingMappings => s.deeds.(mapped := s.deeds.mapped || ok)
    case WritingPidFile => s.deeds.(named := s.deeds.named || ok)
    case _ => s.deeds
  }

  function ParentStep(c: Config, s: State, ok: bool): Option<State> {
    match ParentGoes(s, ok)
    case None => None
    case Some(next) =>
      Some(State(next, if s.parent.Forking? && ok then Joining else s.middle, s.init,
                 ParentWire(c, s, ok), ParentLeaf(c, s, ok), ParentDisk(c, s, ok), ParentHistory(s, ok),
                 ParentAround(c, s, ok), ParentDeeds(s, ok)))
  }

  // ----- the intermediate

  function MiddleGoes(c: Config, s: State, ok: bool): Option<MiddlePc> {
    match s.middle
    case NotForked => None
    case Joining =>
      Some(if !ok then MiddlePc.Failing else if c.userNamespace then Requesting else ForkingInit)
    case Requesting => Some(if ok && ParentEndOpen(s) then AwaitMapping else MiddlePc.Failing)
    case AwaitMapping => (
      match ChildRead(s, ok)
      case Blocks => None
      case Fails => Some(MiddlePc.Failing)
      case Takes(m) => Some(if m.UserMappingDone? then BecomingRoot else MiddlePc.Confused))
    case BecomingRoot => Some(if ok then ForkingInit else MiddlePc.Failing)
    case ForkingInit => Some(if ok then SendingPid else MiddlePc.Failing)
    case SendingPid => Some(if ok && ParentEndOpen(s) then MiddlePc.Exiting else MiddlePc.Failing)
    case Failing => Some(MiddlePc.Exiting)
    case Exiting => Some(MiddlePc.Gone)
    case Gone => None
    case Confused => None
  }

  function MiddleWire(c: Config, s: State, ok: bool): Wire {
    if s.middle.Requesting? && ok && ParentEndOpen(s) then
      Put(s.wire, Packet(FromMiddle, RequestUserMapping))
    else if s.middle.AwaitMapping? && ok && s.wire.toChildren != [] then
      s.wire.(toChildren := s.wire.toChildren[1..])
    else if s.middle.SendingPid? && ok && ParentEndOpen(s) then
      Put(s.wire, Packet(FromMiddle, InitPid(c.initPid)))
    else if s.middle.Failing? && ok && ParentEndOpen(s) then
      Put(s.wire, Packet(FromMiddle, Failed))
    else s.wire
  }

  function MiddleDeeds(s: State, ok: bool): Deeds {
    if s.middle.Joining? then s.deeds.(isolated := s.deeds.isolated || ok)
    else if s.middle.BecomingRoot? then s.deeds.(rooted := s.deeds.rooted || ok)
    else s.deeds
  }

  function MiddleStep(c: Config, s: State, ok: bool): Option<State> {
    match MiddleGoes(c, s, ok)
    case None => None
    case Some(next) =>
      Some(s.(middle := next, wire := MiddleWire(c, s, ok), deeds := MiddleDeeds(s, ok),
              init := if s.middle.ForkingInit? && ok then AwaitAttach else s.init))
  }

  // ----- the container init

  function InitGoes(c: Config, s: State, ok: bool): Option<InitPc> {
    match s.init
    case NotForked => None
    case AwaitAttach => (
      match ChildRead(s, ok)
      case Blocks => None
      case Fails => Some(InitPc.Failing)
      case Takes(m) => Some(if m.CgroupApplied? then UnsharingCgroup else InitPc.Confused))
    case UnsharingCgroup =>
      Some(if !ok then InitPc.Failing else if c.mountNamespace then MountingRootfs else ContainerHooks)
    case MountingRootfs => Some(if ok then ContainerHooks else InitPc.Failing)
    case ContainerHooks =>
      Some(if !ok then InitPc.Failing else if c.mountNamespace then Pivoting else Settling)
    case Pivoting => Some(if ok then Settling else InitPc.Failing)
    case Settling => Some(if ok then SendingReady else InitPc.Failing)
    case SendingReady => Some(if ok && ParentEndOpen(s) then Parked else InitPc.Failing)
    case Parked => if !ok then Some(InitPc.Failing) else if s.past.released then Some(StartHooks) else None
    case StartHooks => Some(if ok then Executing else InitPc.Failing)
    case Executing => Some(if ok then Executed else InitPc.Failing)
    case Executed => None
    case Failing => Some(InitPc.Exiting)
    case Exiting => Some(InitPc.Gone)
    case Gone => None
    case Confused => None
  }

  function InitWire(s: State, ok: bool): Wire {
    if s.init.AwaitAttach? && ok && s.wire.toChildren != [] then
      s.wire.(toChildren := s.wire.toChildren[1..])
    else if s.init.SendingReady? && ok && ParentEndOpen(s) then
      Put(s.wire, Packet(FromInit, InitReady))
    else if s.init.Failing? && ok && ParentEndOpen(s) then
      Put(s.wire, Packet(FromInit, Failed))
    else s.wire
  }

  function InitLogs(c: Config, s: State, ok: bool): seq<Event> {
    if !ok then [] else
    match s.init
    case UnsharingCgroup => When(c.cgroupNamespace, CgroupUnshared)
    case MountingRootfs => [RootfsMounted]
    case ContainerHooks => [CreateContainerHooksRan]
    case Pivoting => [RootPivoted]
    case SendingReady => When(ParentEndOpen(s), ReadySent)
    case StartHooks => [StartContainerHooksRan]
    case Executing => [ProgramExecuted]
    case _ => []
  }

  function InitDies(s: State): State {
    s.(init := InitPc.Gone, leaf := s.leaf.(member := false))
  }

  /** A member of a frozen cgroup makes no step of its own. */
  predicate Held(s: State) {
    (s.around.freezer.own || s.around.freezer.above) && s.leaf.member && InitAlive(s)
  }

  /** A pending SIGKILL ends the init at its next step, frozen or not. */
  function InitStep(c: Config, s: State, ok: bool): Option<State> {
    if InitAlive(s) && s.leaf.killed then Some(InitDies(s))
    else if Held(s) then None
    else
    match InitGoes(c, s, ok)
    case None => None
    case Some(next) =>
      if next.Gone? then Some(InitDies(s))
      else Some(s.(init := next, wire := InitWire(s, ok),
                   past := s.past.(log := s.past.log + InitLogs(c, s, ok))))
  }

  // ----- runs

  function Step(c: Config, s: State, choice: Choice): Option<State> {
    match choice
    case Parent(ok) => ParentStep(c, s, ok)
    case Middle(ok) => MiddleStep(c, s, ok)
    case Init(ok) => InitStep(c, s, ok)
    case KillMiddle =>
      if s.middle.NotForked? || s.middle.Gone? then None else Some(s.(middle := MiddlePc.Gone))
    case KillInit => if InitAlive(s) then Some(InitDies(s)) else None
    case Release =>
      if s.disk.record.Some? && !s.past.released then Some(s.(past := s.past.(released := true))) else None
  }

  /** The state a run of choices leads to, if every choice was possible. */
  function Run(c: Config, choices: seq<Choice>): Option<State> {
    if choices == [] then Some(Start(c))
    else
      match Run(c, choices[..|choices| - 1])
      case None => None
      case Some(s) => Step(c, s, choices[|choices| - 1])
  }

  /** No process can make another step that succeeds. */
  predicate Quiescent(c: Config, s: State) {
    ParentStep(c, s, true).None? && MiddleStep(c, s, true).None? && InitStep(c, s, true).None?
  }

  // ----- the inductive invariant

  /** The init has not read anything yet. */
  predicate InitUntouched(s: State) {
    s.init.NotForked? || s.init.AwaitAttach? || s.init.Gone?
  }

  /** The init has completed the step of rank `n` and has neither failed nor died. */
  predicate InitPast(s: State, n: nat) {
    n < InitRank(s.init) <= 11
  }

  function Mapping(): seq<Packet> { [Packet(FromMiddle, RequestUserMapping)] }

  function Pid(c: Config): seq<Packet> { [Packet(FromMiddle, InitPid(c.initPid))] }

  function MiddleFailed(): seq<Packet> { [Packet(FromMiddle, Failed)] }

  function Ready(): seq<Packet> { [Packet(FromInit, InitReady)] }

  function InitFailed(): seq<Packet> { [Packet(FromInit, Failed)] }

  /** What can wait for the parent before it has read InitPid. */
  ghost predicate MiddleQueue(c: Config, s: State) {
    && !s.past.tookPid
    && InitUntouched(s)
    && (match s.middle
        case Exiting => s.wire.toParent == [] || s.wire.toParent == Pid(c) || s.wire.toParent == MiddleFailed()
        case Gone => || s.wire.toParent == [] || s.wire.toParent == Pid(c) || s.wire.toParent == MiddleFailed()
                     || (s.parent.AwaitFirst? && s.wire.toParent == Mapping())
        case AwaitMapping => s.wire.toParent == if s.parent.AwaitFirst? then Mapping() else []
        case _ => s.wire.toParent == [])
    && (s.wire.toParent != [] && s.wire.toParent[0].message.InitPid? ==>
          !s.init.NotForked? && s.wire.toChildren == [])
    && (s.wire.toParent != [] && s.wire.toParent[0].message.RequestUserMapping? ==>
          s.init.NotForked? && c.userNamespace)
  }

  /** What can wait for the parent once it has sent CgroupApplied. */
  ghost predicate InitQueue(c: Config, s: State) {
    match s.init
    case AwaitAttach => s.wire.toParent == [] && s.wire.toChildren == [CgroupApplied(c.initPid)]
    case Failing => s.wire.toParent == [] || s.wire.toParent == Ready()
    case Exiting | Gone =>
      || s.wire.toParent == [] || s.wire.toParent == InitFailed()
      || s.wire.toParent == Ready() || s.wire.toParent == Ready() + InitFailed()
    case _ => s.wire.toParent == if InitPast(s, 7) then Ready() else []
  }

  /** What the parent can find in its queue, for each place where it stands. */
  ghost predicate ParentQueue(c: Config, s: State) {
    match s.parent
    case AwaitFirst =>
      && MiddleQueue(c, s) && s.wire.toChildren == [] && !s.middle.BecomingRoot?
      && (s.middle.ForkingInit? || s.middle.SendingPid? ==> !c.userNamespace)
    case WritingMappings | SendingMappingDone =>
      && !s.past.tookPid && s.wire.toParent == [] && s.wire.toChildren == []
      && s.init.NotForked? && (s.middle.AwaitMapping? || s.middle.Gone?)
    case AwaitPid =>
      && MiddleQueue(c, s) && !s.middle.Joining? && !s.middle.Requesting?
      && (s.middle.AwaitMapping? ==> s.wire.toChildren == [UserMappingDone])
    case Reaping =>
      && s.past.tookPid && s.wire.toParent == [] && s.wire.toChildren == [] && InitUntouched(s)
    case Attaching | Prestart | CreateRuntime | SendingApplied =>
      && s.past.tookPid && s.wire.toParent == [] && s.wire.toChildren == [] && InitUntouched(s) && s.middle.Gone?
    case AwaitReady => s.past.applied && InitQueue(c, s)
    case ReadingStartTime | SavingState | WritingPidFile =>
      && s.past.applied && InitRank(s.init) >= 8
      && (s.wire.toParent == [] || (InitRank(s.init) >= 13 && s.wire.toParent == InitFailed()))
    case Returned(ok) => ok ==> s.past.applied && InitRank(s.init) >= 8
    case _ => true
  }

  /** What links the two children, the packets in flight and the history. */
  ghost predicate Coherent(c: Config, s: State) {
    && !s.parent.Confused? && !s.middle.Confused? && !s.init.Confused?
    && (ParentRank(s.parent) < 7 ==>
          s.middle.NotForked? && s.wire.toParent == [] && s.wire.toChildren == [] && !s.past.tookPid)
    && (ParentEndOpen(s) ==> !s.middle.NotForked?)
    && (MiddleRank(s.middle) <= 5 ==> s.init.NotForked?)
    && (s.middle.SendingPid? ==> !s.init.NotForked?)
    && (2 <= MiddleRank(s.middle) <= 4 ==> c.userNamespace)
    && (|| s.wire.toChildren == []
        || (s.wire.toChildren == [UserMappingDone] && s.init.NotForked?
            && (s.middle.AwaitMapping? || MiddleRank(s.middle) >= 7))
        || (s.wire.toChildren == [CgroupApplied(c.initPid)] && s.past.applied
            && (s.init.AwaitAttach? || InitRank(s.init) >= 12)))
    && (s.past.tookPid ==> (s.middle.Exiting? || s.middle.Gone?) && !s.init.NotForked?)
    && (s.past.applied ==> s.past.tookPid && s.middle.Gone?)
    && (InitPast(s, 1) ==> s.past.applied)
    && (s.init.Failing? || s.init.Exiting? ==> s.past.applied || !ParentEndOpen(s))
    && (forall p :: p in s.wire.toParent && p.sender.FromInit? ==> s.past.applied)
  }

  /** What each has done where it stands. */
  ghost predicate Done(c: Config, s: State) {
    && (UserMappingDone in s.wire.toChildren || s.parent.SendingMappingDone? ==> s.deeds.mapped)
    && (s.middle.BecomingRoot? ==> s.deeds.mapped)
    && (2 <= MiddleRank(s.middle) <= 6 || !s.init.NotForked? ==> s.deeds.isolated)
    && (c.userNamespace && (5 <= MiddleRank(s.middle) <= 6 || !s.init.NotForked?) ==> s.deeds.mapped && s.deeds.rooted)
    && (s.parent == Returned(true) ==> s.deeds.named)
  }

  /** The cgroup and the disk. */
  ghost predicate Resources(c: Config, s: State) {
    var rank := ParentRank(s.parent);
    && (s.leaf.member ==> InitAlive(s) && s.leaf.present)
    && (s.past.log != [] && InitAlive(s) ==> s.leaf.member)
    && (s.past.applied ==> s.past.log != [])
    && (s.past.log != [] ==> s.past.tookPid)
    && (rank <= 12 ==> s.past.log == [])
    && (rank < 2 ==> s.leaf.present == c.existed && !s.leaf.stuck && !s.around.made)
    && (2 <= rank <= 23 || s.parent == Returned(true) ==> s.leaf.present && !s.leaf.stuck && s.around.made)
    && (rank == 24 || s.parent == Returned(false) ==>
          (s.leaf.present <==> s.leaf.stuck || (c.existed && !s.around.made)))
    && (s.leaf.stuck ==> s.around.made)
    && (3 <= rank <= 22 || s.past.tookPid ==> s.around.freezer == FreezerAfter(c))
    && (s.parent != Returned(false) ==> s.disk.dir && !s.disk.stuck)
    && (rank <= 3 ==> !s.disk.fifo)
    && (4 <= rank <= 20 || s.parent == Returned(true) ==> s.disk.fifo)
    && (s.parent == Returned(false) ==>
          (s.disk.dir <==> s.disk.stuck) && (s.disk.fifo || s.disk.record.Some? ==> s.disk.stuck))
    && (s.disk.record.Some? ==> s.past.applied && s.disk.record == Some(Record(c.initPid, c.initStart)))
    && (rank == 19 || s.parent == Returned(true) ==> s.disk.record.Some?)
    && (s.leaf.killed ==> rank >= 22)
    && (rank == 22 && s.leaf.member ==> s.leaf.killed || s.leaf.unread)
    && (rank == 23 || rank == 24 || s.parent == Returned(false) ==> s.leaf.member ==> s.leaf.unread)
  }

  // ----- the order of the logged steps

  function Setup(): seq<Event> { [Attached, PrestartHooksRan, CreateRuntimeHooksRan] }

  /** The logged steps of a create and its start, in the order the documentation promises. */
  function Script(c: Config): seq<Event> {
    Setup() + When(c.cgroupNamespace, CgroupUnshared)
    + When(c.mountNamespace, RootfsMounted) + [CreateContainerHooksRan]
    + When(c.mountNamespace, RootPivoted) + [ReadySent, StartContainerHooksRan, ProgramExecuted]
  }

  /** The part of the script an init has behind it while it works. */
  function Reached(c: Config, p: InitPc): seq<Event> {
    var unshared := Setup() + When(c.cgroupNamespace, CgroupUnshared);
    var mounted := unshared + When(c.mountNamespace, RootfsMounted);
    var hooked := mounted + [CreateContainerHooksRan];
    var pivoted := hooked + When(c.mountNamespace, RootPivoted);
    match p
    case UnsharingCgroup => Setup()
    case MountingRootfs => unshared
    case ContainerHooks => mounted
    case Pivoting => hooked
    case Settling | SendingReady => pivoted
    case Parked | StartHooks => pivoted + [ReadySent]
    case Executing => pivoted + [ReadySent, StartContainerHooksRan]
    case Executed => Script(c)
    case _ => []
  }

  ghost predicate Ordered(c: Config, s: State) {
    && s.past.log <= Script(c)
    && (InitPast(s, 1) ==> s.past.log == Reached(c, s.init))
    && (s.init.MountingRootfs? || s.init.Pivoting? ==> c.mountNamespace)
    && (s.past.applied && s.init.AwaitAttach? ==> s.past.log == Setup())
    && (!s.past.applied ==> |s.past.log| <= 3)
    && (ParentRank(s.parent) <= 15 ==>
          !s.past.applied && |s.past.log| == if ParentRank(s.parent) <= 12 then 0 else ParentRank(s.parent) - 12)
    && ((Packet(FromInit, InitReady) in s.wire.toParent || 17 <= ParentRank(s.parent) <= 19
         || s.parent == Returned(true)) ==> ReadySent in s.past.log)
  }

  ghost predicate Inv(c: Config, s: State) {
    && ParentQueue(c, s)
    && Coherent(c, s)
    && Resources(c, s)
    && Ordered(c, s)
    && Done(c, s)
  }
}
