/** What `exec` does to its own process before it forks: which namespaces of the container it joins, and
    in which mount namespace each of its paths is looked up (src/container/exec.rs, `exec`, `collect`). */
module ExecWorld {
  import opened Wrappers
  import opened Namespaces

  // ----- the namespaces to join

  const ORDER: seq<Kind> := [User, Ipc, Uts, Network, Pid, Cgroup, Mount]

  /** /proc/<pid>/ns as the links it has; the numbers are what the links name. */
  type Links = map<Kind, nat>

  predicate Differs(ours: Links, theirs: Links, k: Kind) {
    k in theirs && (k in ours ==> ours[k] != theirs[k])
  }

  function Chosen(order: seq<Kind>, ours: Links, theirs: Links): seq<Kind> {
    if order == [] then []
    else
      var before := Chosen(order[..|order| - 1], ours, theirs);
      var k := order[|order| - 1];
      if Differs(ours, theirs, k) then before + [k] else before
  }

  /** Where a kind stands in an order that has it. */
  function Position(order: seq<Kind>, k: Kind): (n: nat)
    requires k in order
    ensures n < |order| && order[n] == k
  {
    if order[|order| - 1] == k then |order| - 1 else Position(order[..|order| - 1], k)
  }

  ghost predicate Increasing(kinds: seq<Kind>, order: seq<Kind>) {
    && (forall i :: 0 <= i < |kinds| ==> kinds[i] in order)
    && (forall i, j :: 0 <= i < j < |kinds| ==> Position(order, kinds[i]) < Position(order, kinds[j]))
  }

  ghost predicate Distinct(order: seq<Kind>) {
    forall a, b :: 0 <= a < b < |order| ==> order[a] != order[b]
  }

  lemma {:induction false} ChosenIsASubsequence(order: seq<Kind>, ours: Links, theirs: Links)
    requires Distinct(order)
    ensures forall k :: k in Chosen(order, ours, theirs) <==> k in order && Differs(ours, theirs, k)
    ensures Increasing(Chosen(order, ours, theirs), order)
  {
    if order != [] {
      var n := |order| - 1;
      var front, before := order[..n], Chosen(order[..n], ours, theirs);
      ChosenIsASubsequence(front, ours, theirs);
      assert order == front + [order[n]];
      forall k | k in front ensures Position(order, k) == Position(front, k) {
      }
      forall i | 0 <= i < |before| ensures before[i] in front && before[i] in order {
        assert before[i] in before;
      }
    }
  }

  /** Exactly the differing namespaces are joined, each once, in the fixed order with the mount
      namespace last; but never the time namespace, which the order does not have. */
  lemma JoinsDiffering(ours: Links, theirs: Links)
    ensures var joins := Chosen(ORDER, ours, theirs);
            && Increasing(joins, ORDER)
            && (forall k :: k in joins <==> k != Time && Differs(ours, theirs, k))
            && (Mount in joins ==> joins[|joins| - 1] == Mount)
  {
    var joins := Chosen(ORDER, ours, theirs);
    ChosenIsASubsequence(ORDER, ours, theirs);
    if Mount in joins {
      MountComesLast(joins);
    }
  }

  /** The user namespace comes first when it is joined at all, the pid namespace before the mount
      namespace; and altogether the order is the one in which create joins. */
  lemma JoinsInOrder(ours: Links, theirs: Links)
    ensures var joins := Chosen(ORDER, ours, theirs);
            && (User in joins ==> joins[0] == User)
            && (forall i, j :: 0 <= i < |joins| && 0 <= j < |joins| && joins[i] == Pid && joins[j] == Mount ==> i < j)
            && (forall i, j :: 0 <= i < j < |joins| ==> JoinPosition(joins[i]) < JoinPosition(joins[j]))
  {
    var joins := Chosen(ORDER, ours, theirs);
    ChosenIsASubsequence(ORDER, ours, theirs);
    forall i | 0 <= i < |joins| ensures JoinPosition(joins[i]) == Position(ORDER, joins[i]) {
      assert joins[i] in ORDER;
      SamePositions(joins[i]);
    }
    if User in joins {
      var i :| 0 <= i < |joins| && joins[i] == User;
      assert i == 0;
    }
  }

  lemma SamePositions(k: Kind)
    requires k in ORDER
    ensures JoinPosition(k) == Position(ORDER, k)
  {
    var n := Position(ORDER, k);
    assert ORDER[n] == k;
    assert n == 0 || n == 1 || n == 2 || n == 3 || n == 4 || n == 5 || n == 6;
  }

  lemma MountComesLast(joins: seq<Kind>)
    requires Increasing(joins, ORDER) && Mount in joins
    ensures joins[|joins| - 1] == Mount
  {
    var i :| 0 <= i < |joins| && joins[i] == Mount;
    var last := |joins| - 1;
    assert ORDER[6] == Mount && Position(ORDER, Mount) == 6;
    assert joins[last] in ORDER && Position(ORDER, joins[last]) <= 6;
    assert i == last;
  }

  // ----- paths, handles and namespaces

  datatype HostPath = BundleConfig | ProcessFile | OwnTasks | NsLink(kind: Kind) | Console | CgroupProcs | PidFile

  /** What a handle refers to: a namespace of the container, or whatever a path names in the mount
      namespace with this number. */
  datatype Object = Named(view: nat, path: HostPath) | Namespace(kind: Kind, id: nat)

  /** The namespaces of the runtime when it starts, those of the container's init, and whether the runtime
      starts with CAP_SYS_ADMIN over them. */
  datatype World = World(own: Links, theirs: Links, privileged: bool)

  /** The namespace of a process; a kind the kernel does not have is number 0. */
  function In(links: Links, k: Kind): nat {
    if k in links then links[k] else 0
  }

  /** The init's pid means the init only in the runtime's own /proc. */
  function Lookup(w: World, view: nat, path: HostPath): Option<Object> {
    if path.NsLink? && view == In(w.own, Mount) then
      if path.kind in w.theirs then Some(Namespace(path.kind, w.theirs[path.kind])) else None
    else Some(Named(view, path))
  }

  datatype Event =
    | Open(path: HostPath)
    | JoinNs(kind: Kind)
    | BlockSignals
    | Fork
    | Place                      // the child's pid is written to the open cgroup.procs
    | SendApplied
    | WritePidFile
    | Enter                      // in the child: working directory, console, user, program path
    | Execute

  /** The runtime's process: its namespaces, the pid namespace its children will be in, its handles, and
      what the two writes went to. */
  datatype Process = Process(
    ns: Links, pidForChildren: nat, admin: bool, open: map<HostPath, Object>,
    placedIn: Option<Object>, pidWrittenTo: Option<Object>)

  function Begin(w: World): Process {
    Process(w.own, In(w.own, Pid), w.privileged, map[], None, None)
  }

  /** One system call. setns(2) takes a handle of the right kind, moves only later children into a pid
      namespace, and needs CAP_SYS_ADMIN; a process gets that over a container by joining the user
      namespace of the container, which its creator may (user_namespaces(7)). */
  function Do(w: World, p: Process, e: Event): Option<Process> {
    match e
    case Open(path) => (
      match Lookup(w, In(p.ns, Mount), path)
      case None => None
      case Some(found) => Some(p.(open := p.open[path := found])))
    case JoinNs(k) =>
      if NsLink(k) in p.open && p.open[NsLink(k)].Namespace? && p.open[NsLink(k)].kind == k
         && (k == User || p.admin) then
        var id := p.open[NsLink(k)].id;
        Some(if k == Pid then p.(pidForChildren := id)
             else p.(ns := p.ns[k := id], admin := p.admin || k == User))
      else None
    case Place =>
      if CgroupProcs in p.open then Some(p.(placedIn := Some(p.open[CgroupProcs]))) else None
    case WritePidFile =>
      if PidFile in p.open then Some(p.(pidWrittenTo := Some(p.open[PidFile]))) else None
    case _ => Some(p)
  }

  function Perform(w: World, events: seq<Event>): Option<Process> {
    if events == [] then Some(Begin(w))
    else
      match Perform(w, events[..|events| - 1])
      case None => None
      case Some(p) => Do(w, p, events[|events| - 1])
  }

  lemma PerformSnoc(w: World, events: seq<Event>, e: Event)
    ensures Perform(w, events + [e])
            == if Perform(w, events).None? then None else Do(w, Perform(w, events).value, e)
  {
    assert (events + [e])[..|events|] == events;
  }

  /** The namespaces a fork gives to the child. */
  function ChildNamespaces(p: Process): Links {
    p.ns[Pid := p.pidForChildren]
  }

  // ----- where any sequence of calls leads

  /** The namespace handles of a process are the container's, and it is in each namespace it joined and
      otherwise in its own. */
  ghost predicate Joined(w: World, p: Process, events: seq<Event>) {
    && (forall path :: path in p.open && p.open[path].Namespace? ==>
          p.open[path].kind in w.theirs && p.open[path].id == w.theirs[p.open[path].kind])
    && (forall k: Kind :: JoinNs(k) in events ==> k in w.theirs)
    && (forall k: Kind :: In(ChildNamespaces(p), k) == if JoinNs(k) in events then In(w.theirs, k) else In(w.own, k))
    && In(p.ns, Mount) == In(ChildNamespaces(p), Mount)
    && (p.admin <==> w.privileged || JoinNs(User) in events)
  }

  lemma DoKeepsJoined(w: World, p: Process, events: seq<Event>, e: Event)
    requires Joined(w, p, events) && Do(w, p, e).Some?
    ensures Joined(w, Do(w, p, e).value, events + [e])
  {
    forall k: Kind
      ensures JoinNs(k) in events + [e] <==> JoinNs(k) in events || e == JoinNs(k)
    {
    }
  }

  lemma {:induction false} NamespacesAfter(w: World, events: seq<Event>)
    requires Perform(w, events).Some?
    ensures Joined(w, Perform(w, events).value, events)
  {
    if events != [] {
      var before, e := events[..|events| - 1], events[|events| - 1];
      NamespacesAfter(w, before);
      DoKeepsJoined(w, Perform(w, before).value, before, e);
      assert events == before + [e];
    }
  }

  lemma {:induction false} HandleStays(w: World, before: seq<Event>, after: seq<Event>, path: HostPath)
    requires Perform(w, before + after).Some? && Open(path) !in after
    ensures Perform(w, before).Some?
    ensures var was, now := Perform(w, before).value.open, Perform(w, before + after).value.open;
            (path in now <==> path in was) && (path in now ==> now[path] == was[path])
  {
    if after == [] {
      assert before + after == before;
    } else {
      var front, e := after[..|after| - 1], after[|after| - 1];
      assert before + after == (before + front) + [e];
      PerformSnoc(w, before + front, e);
      assert e in after && forall x :: x in front ==> x in after;
      HandleStays(w, before, front, path);
    }
  }

  /** A file opened between two stretches of calls, whatever these are, is the host's if and only if the
      first did not move the process into another mount namespace. */
  lemma OpenedOnTheHostExactly(w: World, before: seq<Event>, path: HostPath, after: seq<Event>)
    requires !path.NsLink? && Open(path) !in after
    requires Perform(w, before + [Open(path)] + after).Some?
    ensures var open := Perform(w, before + [Open(path)] + after).value.open;
            && path in open
            && open[path] == Named(if JoinNs(Mount) in before then In(w.theirs, Mount) else In(w.own, Mount), path)
            && (open[path] == Named(In(w.own, Mount), path)
                <==> JoinNs(Mount) !in before || In(w.theirs, Mount) == In(w.own, Mount))
  {
    HandleStays(w, before + [Open(path)], after, path);
    PerformSnoc(w, before, Open(path));
    NamespacesAfter(w, before);
  }

  /** And a namespace whose link is opened after such a move cannot be joined. */
  lemma LateLinkCannotBeJoined(w: World, before: seq<Event>, k: Kind, after: seq<Event>)
    requires Open(NsLink(k)) !in after
    requires JoinNs(Mount) in before && In(w.theirs, Mount) != In(w.own, Mount)
    ensures Perform(w, before + [Open(NsLink(k))] + after + [JoinNs(k)]).None?
  {
    var events := before + [Open(NsLink(k))] + after;
    PerformSnoc(w, events, JoinNs(k));
    if Perform(w, events).Some? {
      HandleStays(w, before + [Open(NsLink(k))], after, NsLink(k));
      PerformSnoc(w, before, Open(NsLink(k)));
      NamespacesAfter(w, before);
    }
  }
}
