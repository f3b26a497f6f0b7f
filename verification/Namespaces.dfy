/** From the namespaces of a bundle to the setns and unshare calls that carry them out
    (src/bundle/validate.rs `namespace_types`, src/namespace.rs, src/container/mod.rs,
    src/container/init.rs `unshare_order`, `join_existing`). */
module Namespaces {
  import opened Wrappers

  datatype Kind = User | Mount | Uts | Ipc | Pid | Network | Time | Cgroup

  /** A flag word, as the set of its bits. */
  type Flags = set<nat>

  /** The bit of CLONE_NEW<kind>. */
  function Bit(k: Kind): nat {
    match k
    case Mount => 17
    case Pid => 29
    case Network => 30
    case Ipc => 27
    case Uts => 26
    case User => 28
    case Cgroup => 25
    case Time => 7
  }

  function FlagFor(k: Kind): Flags {
    {Bit(k)}
  }

  predicate Contains(flags: Flags, k: Kind) {
    Bit(k) in flags
  }

  /** `without` works on the raw bits. */
  function Without(flags: Flags, unwanted: Flags): Flags {
    flags - unwanted
  }

  /** The complement the bindings compute keeps only the bits they have a name for, and
      CLONE_NEWTIME has none. */
  const NAMED_BITS: Flags := {17, 25, 26, 27, 28, 29, 30}

  function MaskedOut(flags: Flags, unwanted: Flags): Flags {
    flags * (NAMED_BITS - unwanted)
  }

  /** An entry of linux.namespaces; an absent or empty path asks for a new namespace. */
  datatype Request = Request(kind: Kind, path: Option<string>)

  predicate Joins(r: Request) {
    r.path.Some? && r.path.value != ""
  }

  datatype Join = Join(kind: Kind, path: string)

  datatype Layout = Layout(create: Flags, join: seq<Join>)

  // ----- validation

  ghost predicate NoDuplicates(list: seq<Request>) {
    forall i, j :: 0 <= i < j < |list| ==> list[i].kind != list[j].kind
  }

  /** `namespace_types` accepts a list exactly when no type is listed twice. */
  method NamespaceTypes(list: seq<Request>) returns (r: Result<set<Kind>, Kind>)
    ensures r.Ok? <==> NoDuplicates(list)
    ensures r.Ok? ==> r.value == set q | q in list :: q.kind
    ensures r.Err? ==> exists i, j :: 0 <= i < j < |list| && list[i].kind == list[j].kind == r.error
  {
    var seen: set<Kind> := {};
    for i := 0 to |list|
      invariant seen == set q | q in list[..i] :: q.kind
      invariant NoDuplicates(list[..i])
    {
      var kind := list[i].kind;
      assert list[..i + 1] == list[..i] + [list[i]];
      if kind in seen {
        var q :| q in list[..i] && q.kind == kind;
        var j :| 0 <= j < i && list[..i][j] == q;
        assert list[j].kind == kind;
        return Err(kind);
      }
      forall k | 0 <= k < i ensures list[k].kind != kind {
        assert list[..i][k] in list[..i];
      }
      seen := seen + {kind};
    }
    assert list[..|list|] == list;
    return Ok(seen);
  }

  // ----- layout

  function JoinPosition(k: Kind): nat {
    match k
    case User => 0
    case Ipc => 1
    case Uts => 2
    case Network => 3
    case Pid => 4
    case Cgroup => 5
    case Mount => 6
    case Time => 7      // not in JOIN_ORDER, so it sorts after everything
  }

  /** The stable order of `sort_by_key`. */
  function Insert(list: seq<Join>, j: Join): (sorted: seq<Join>)
    ensures multiset(sorted) == multiset(list) + multiset{j}
  {
    if list == [] || JoinPosition(list[|list| - 1].kind) <= JoinPosition(j.kind) then list + [j]
    else
      assert list == list[..|list| - 1] + [list[|list| - 1]];
      Insert(list[..|list| - 1], j) + [list[|list| - 1]]
  }

  function SortJoins(list: seq<Join>): (sorted: seq<Join>)
    ensures multiset(sorted) == multiset(list)
  {
    if list == [] then []
    else
      assert list == list[..|list| - 1] + [list[|list| - 1]];
      Insert(SortJoins(list[..|list| - 1]), list[|list| - 1])
  }

  ghost predicate InJoinOrder(list: seq<Join>) {
    forall i, j :: 0 <= i < j < |list| ==> JoinPosition(list[i].kind) <= JoinPosition(list[j].kind)
  }

  lemma {:induction false} InsertKeepsOrder(list: seq<Join>, j: Join)
    requires InJoinOrder(list)
    ensures InJoinOrder(Insert(list, j))
  {
    if list != [] && JoinPosition(list[|list| - 1].kind) > JoinPosition(j.kind) {
      var front := list[..|list| - 1];
      InsertKeepsOrder(front, j);
      forall i | 0 <= i < |Insert(front, j)|
        ensures JoinPosition(Insert(front, j)[i].kind) <= JoinPosition(list[|list| - 1].kind)
      {
        assert Insert(front, j)[i] in multiset(Insert(front, j));
        assert Insert(front, j)[i] == j || Insert(front, j)[i] in front;
      }
    }
  }

  lemma {:induction false} SortJoinsOrders(list: seq<Join>)
    ensures InJoinOrder(SortJoins(list))
    ensures multiset(SortJoins(list)) == multiset(list)
  {
    if list != [] {
      SortJoinsOrders(list[..|list| - 1]);
      InsertKeepsOrder(SortJoins(list[..|list| - 1]), list[|list| - 1]);
    }
  }

  /** The joins a list of requests asks for, in list order. */
  function Joined(list: seq<Request>): seq<Join> {
    if list == [] then []
    else
      var front, last := Joined(list[..|list| - 1]), list[|list| - 1];
      if Joins(last) then front + [Join(last.kind, last.path.value)] else front
  }

  lemma BitsDiffer(k: Kind, other: Kind)
    ensures Bit(k) == Bit(other) ==> k == other
  {
  }

  ghost predicate Creates(list: seq<Request>, k: Kind) {
    exists q :: q in list && q.kind == k && !Joins(q)
  }

  lemma CreatesSnoc(list: seq<Request>, q: Request, k: Kind)
    ensures Creates(list + [q], k) <==> Creates(list, k) || (q.kind == k && !Joins(q))
  {
    if q.kind == k && !Joins(q) {
      assert q in list + [q];
    }
    if Creates(list, k) {
      var earlier :| earlier in list && earlier.kind == k && !Joins(earlier);
      assert earlier in list + [q];
    }
  }

  /** `layout`: what has a path is joined, in join order; everything else, and nothing more, is
      created. It fails only for a path that does not exist. */
  method MakeLayout(list: seq<Request>, existing: set<string>) returns (r: Result<Layout, Request>)
    ensures r.Ok? <==> forall q :: q in list && Joins(q) ==> q.path.value in existing
    ensures r.Err? ==> r.error in list && Joins(r.error) && r.error.path.value !in existing
    ensures r.Ok? ==>
              && (forall k :: Contains(r.value.create, k) <==> Creates(list, k))
              && r.value.join == SortJoins(Joined(list))
  {
    var create: Flags := {};
    var join: seq<Join> := [];
    for i := 0 to |list|
      invariant forall q :: q in list[..i] && Joins(q) ==> q.path.value in existing
      invariant forall k :: Contains(create, k) <==> Creates(list[..i], k)
      invariant join == Joined(list[..i])
    {
      var q := list[i];
      assert list[..i + 1] == list[..i] + [q];
      assert list[..i + 1][..i] == list[..i];
      ghost var before := create;
      forall k ensures Creates(list[..i + 1], k) <==> Creates(list[..i], k) || (q.kind == k && !Joins(q)) {
        CreatesSnoc(list[..i], q, k);
      }
      if Joins(q) {
        if q.path.value !in existing {
          assert q in list;
          return Err(q);
        }
        join := join + [Join(q.kind, q.path.value)];
      } else {
        create := create + FlagFor(q.kind);
      }
      forall k ensures Contains(create, k) <==> Creates(list[..i + 1], k) {
        BitsDiffer(k, q.kind);
        assert Contains(before, k) <==> Creates(list[..i], k);
      }
    }
    assert list[..|list|] == list;
    return Ok(Layout(create, SortJoins(join)));
  }

  // ----- carrying the layout out

  datatype Action = SetNs(kind: Kind, path: string) | Unshare(kind: Kind)

  const UNSHARE_ORDER := [User, Mount, Uts, Ipc, Pid, Network, Time]

  /** The unshare calls for the kinds of an order that a flag word contains. */
  function Unshares(flags: Flags, order: seq<Kind>): seq<Action> {
    if order == [] then []
    else
      var last := order[|order| - 1];
      Unshares(flags, order[..|order| - 1]) + if Contains(flags, last) then [Unshare(last)] else []
  }

  function SetNsAll(join: seq<Join>): seq<Action> {
    if join == [] then []
    else SetNsAll(join[..|join| - 1]) + [SetNs(join[|join| - 1].kind, join[|join| - 1].path)]
  }

  /** Joins, then new namespaces, then the cgroup namespace once the init is in its cgroup. */
  function Actions(layout: Layout): seq<Action> {
    SetNsAll(layout.join)
    + Unshares(Without(layout.create, FlagFor(Cgroup)), UNSHARE_ORDER)
    + if Contains(layout.create, Cgroup) then [Unshare(Cgroup)] else []
  }

  /** `build`, `join_existing`, the unshare loop of `stage_one` and the first step of the init. */
  method Isolate(layout: Layout) returns (actions: seq<Action>)
    ensures actions == Actions(layout)
  {
    var cgroupNs := Contains(layout.create, Cgroup);
    var flags := Without(layout.create, FlagFor(Cgroup));
    actions := [];
    for i := 0 to |layout.join|
      invariant actions == SetNsAll(layout.join[..i])
    {
      assert layout.join[..i + 1][..i] == layout.join[..i];
      actions := actions + [SetNs(layout.join[i].kind, layout.join[i].path)];
    }
    assert layout.join[..|layout.join|] == layout.join;
    var order := UNSHARE_ORDER;
    for i := 0 to |order|
      invariant actions == SetNsAll(layout.join) + Unshares(flags, order[..i])
    {
      assert order[..i + 1][..i] == order[..i];
      if Contains(flags, order[i]) {
        actions := actions + [Unshare(order[i])];
      }
    }
    assert order[..|order|] == order;
    if cgroupNs {
      actions := actions + [Unshare(Cgroup)];
    }
  }

  function Count(actions: seq<Action>, k: Kind): nat {
    if actions == [] then 0
    else Count(actions[..|actions| - 1], k) + if actions[|actions| - 1].kind == k then 1 else 0
  }

  function CountJoins(join: seq<Join>, k: Kind): nat {
    if join == [] then 0
    else CountJoins(join[..|join| - 1], k) + if join[|join| - 1].kind == k then 1 else 0
  }

  lemma {:induction false} CountConcat(a: seq<Action>, b: seq<Action>, k: Kind)
    ensures Count(a + b, k) == Count(a, k) + Count(b, k)
  {
    if b == [] {
      assert a + b == a;
    } else {
      assert (a + b)[..|a + b| - 1] == a + b[..|b| - 1];
      CountConcat(a, b[..|b| - 1], k);
    }
  }

  lemma CountOfOneMore(list: seq<Join>, j: Join, k: Kind)
    ensures CountJoins(list + [j], k) == CountJoins(list, k) + if j.kind == k then 1 else 0
  {
    assert (list + [j])[..|list|] == list;
  }

  lemma {:induction false} InsertCounts(list: seq<Join>, j: Join, k: Kind)
    ensures CountJoins(Insert(list, j), k) == CountJoins(list, k) + if j.kind == k then 1 else 0
  {
    if list == [] || JoinPosition(list[|list| - 1].kind) <= JoinPosition(j.kind) {
      CountOfOneMore(list, j, k);
    } else {
      var front, last := list[..|list| - 1], list[|list| - 1];
      InsertCounts(front, j, k);
      CountOfOneMore(Insert(front, j), last, k);
    }
  }

  lemma {:induction false} SortCounts(list: seq<Join>, k: Kind)
    ensures CountJoins(SortJoins(list), k) == CountJoins(list, k)
  {
    if list != [] {
      SortCounts(list[..|list| - 1], k);
      InsertCounts(SortJoins(list[..|list| - 1]), list[|list| - 1], k);
    }
  }

  ghost predicate AsksToJoin(list: seq<Request>, k: Kind) {
    exists q :: q in list && q.kind == k && Joins(q)
  }

  ghost predicate Asks(list: seq<Request>, k: Kind) {
    exists q :: q in list && q.kind == k
  }

  lemma {:induction false} JoinedCounts(list: seq<Request>, k: Kind)
    requires NoDuplicates(list)
    ensures CountJoins(Joined(list), k) == if AsksToJoin(list, k) then 1 else 0
  {
    if list != [] {
      var front, last := list[..|list| - 1], list[|list| - 1];
      assert list == front + [last];
      JoinedCounts(front, k);
      if Joins(last) {
        CountOfOneMore(Joined(front), Join(last.kind, last.path.value), k);
      }
      AsksOfOneMore(front, last, k);
    }
  }

  lemma AsksOfOneMore(front: seq<Request>, last: Request, k: Kind)
    requires NoDuplicates(front + [last])
    ensures AsksToJoin(front + [last], k) <==> AsksToJoin(front, k) || (last.kind == k && Joins(last))
    ensures last.kind == k ==> !AsksToJoin(front, k)
  {
    var list := front + [last];
    forall i | 0 <= i < |front| ensures front[i].kind != last.kind {
      assert list[i].kind != list[|front|].kind;
    }
    assert list[|front|] in list;
    assert forall q :: q in front ==> q in list;
  }

  lemma {:induction false} SetNsCounts(join: seq<Join>, k: Kind)
    ensures Count(SetNsAll(join), k) == CountJoins(join, k)
    ensures forall a :: a in SetNsAll(join) ==> a.SetNs?
  {
    if join != [] {
      var front := SetNsAll(join[..|join| - 1]);
      SetNsCounts(join[..|join| - 1], k);
      assert SetNsAll(join)[..|front|] == front;
    }
  }

  lemma {:induction false} UnsharesCount(flags: Flags, order: seq<Kind>, k: Kind)
    requires forall i, j :: 0 <= i < j < |order| ==> order[i] != order[j]
    ensures Count(Unshares(flags, order), k) == if Contains(flags, k) && k in order then 1 else 0
    ensures forall a :: a in Unshares(flags, order) ==> a.Unshare?
  {
    if order != [] {
      var front, last := order[..|order| - 1], order[|order| - 1];
      assert order == front + [last];
      UnsharesCount(flags, front, k);
      assert last !in front;
      var calls := Unshares(flags, front);
      if Contains(flags, last) {
        assert (calls + [Unshare(last)])[..|calls|] == calls;
      } else {
        assert calls + [] == calls;
      }
    }
  }

  lemma UnshareOrderCoversAllButCgroup(k: Kind)
    ensures k in UNSHARE_ORDER <==> k != Cgroup
    ensures forall i, j :: 0 <= i < j < |UNSHARE_ORDER| ==> UNSHARE_ORDER[i] != UNSHARE_ORDER[j]
  {
    assert UNSHARE_ORDER[0] == User && UNSHARE_ORDER[1] == Mount && UNSHARE_ORDER[2] == Uts
           && UNSHARE_ORDER[3] == Ipc && UNSHARE_ORDER[4] == Pid && UNSHARE_ORDER[5] == Network
           && UNSHARE_ORDER[6] == Time;
  }

  /** The calls for new namespaces, in the intermediate and then in the init. */
  lemma CreatedCounts(create: Flags, k: Kind)
    ensures var calls := Unshares(Without(create, FlagFor(Cgroup)), UNSHARE_ORDER)
                         + if Contains(create, Cgroup) then [Unshare(Cgroup)] else [];
            Count(calls, k) == if Contains(create, k) then 1 else 0
  {
    var order := UNSHARE_ORDER;
    var flags := Without(create, FlagFor(Cgroup));
    UnshareOrderCoversAllButCgroup(k);
    UnsharesCount(flags, order, k);
    BitsDiffer(k, Cgroup);
    var last := if Contains(create, Cgroup) then [Unshare(Cgroup)] else [];
    CountConcat(Unshares(flags, order), last, k);
    assert last != [] ==> last[..0] == [];
  }

  lemma RequestsSplit(list: seq<Request>, k: Kind)
    requires NoDuplicates(list)
    ensures Asks(list, k) <==> AsksToJoin(list, k) || Creates(list, k)
    ensures !(AsksToJoin(list, k) && Creates(list, k))
  {
    if Asks(list, k) {
      var q :| q in list && q.kind == k;
      assert Joins(q) || !Joins(q);
    }
  }

  /** Every requested type is joined exactly once or created exactly once, as its entry asks, and
      no other namespace is touched; the time bit survives the removal of the cgroup bit. */
  lemma EachRequestOnce(list: seq<Request>, layout: Layout, k: Kind)
    requires NoDuplicates(list)
    requires forall k :: Contains(layout.create, k) <==> Creates(list, k)
    requires layout.join == SortJoins(Joined(list))
    ensures Count(Actions(layout), k) == if Asks(list, k) then 1 else 0
    ensures Count(SetNsAll(layout.join), k) == if AsksToJoin(list, k) then 1 else 0
    ensures Asks(list, k) <==> AsksToJoin(list, k) || Creates(list, k)
    ensures !(AsksToJoin(list, k) && Creates(list, k))
  {
    JoinedCounts(list, k);
    SortCounts(Joined(list), k);
    ActionsCount(layout, k);
    RequestsSplit(list, k);
    assert Contains(layout.create, k) <==> Creates(list, k);
  }

  lemma ActionsCount(layout: Layout, k: Kind)
    ensures Count(SetNsAll(layout.join), k) == CountJoins(layout.join, k)
    ensures Count(Actions(layout), k) == CountJoins(layout.join, k) + if Contains(layout.create, k) then 1 else 0
  {
    SetNsCounts(layout.join, k);
    CreatedCounts(layout.create, k);
    var calls := Unshares(Without(layout.create, FlagFor(Cgroup)), UNSHARE_ORDER)
                 + if Contains(layout.create, Cgroup) then [Unshare(Cgroup)] else [];
    CountConcat(SetNsAll(layout.join), calls, k);
    assert Actions(layout) == SetNsAll(layout.join) + calls;
  }

  /** An entry with an absent or empty path is created and not joined, one with a path is joined there; and
      nothing is joined that no entry names. */
  lemma RequestIsCarriedOut(list: seq<Request>, layout: Layout, q: Request)
    requires forall k :: Contains(layout.create, k) <==> Creates(list, k)
    requires layout.join == SortJoins(Joined(list)) && q in list
    ensures q.path == None || q.path == Some("") ==> Contains(layout.create, q.kind)
    ensures q.path.Some? && q.path.value != "" ==> Join(q.kind, q.path.value) in layout.join
    ensures forall j :: j in layout.join ==> exists p :: p in list && p == Request(j.kind, Some(j.path)) && j.path != ""
  {
    SortJoinsOrders(Joined(list));
    SameMembers(layout.join, Joined(list));
    JoinedMembers(list);
    if !Joins(q) {
      assert Creates(list, q.kind);
    } else {
      assert Request(q.kind, Some(q.path.value)) == q;
    }
  }

  lemma SameMembers(a: seq<Join>, b: seq<Join>)
    requires multiset(a) == multiset(b)
    ensures forall j :: j in a <==> j in b
  {
    forall j ensures j in a <==> j in b {
      assert j in a <==> j in multiset(a);
      assert j in b <==> j in multiset(b);
    }
  }

  lemma {:induction false} JoinedMembers(list: seq<Request>)
    ensures forall j :: j in Joined(list) <==> Request(j.kind, Some(j.path)) in list && j.path != ""
  {
    if list != [] {
      var front, last := list[..|list| - 1], list[|list| - 1];
      JoinedMembers(front);
      assert list == front + [last];
      forall j ensures j in Joined(list) <==> Request(j.kind, Some(j.path)) in list && j.path != "" {
        assert Request(j.kind, Some(j.path)) == last ==> (Joins(last) <==> j.path != "");
      }
    }
  }

  // ----- a runtime without privileges

  /** A process without CAP_SYS_ADMIN gets it by entering a user namespace, its own new one or one that it
      may join; every other setns or unshare needs it (user_namespaces(7)). */
  predicate Allowed(privileged: bool, actions: seq<Action>) {
    forall i :: 0 <= i < |actions| ==>
      privileged || actions[i].kind == User || exists j :: 0 <= j < i && actions[j].kind == User
  }

  lemma AllowedFromTheFirst(actions: seq<Action>)
    ensures Allowed(false, actions) <==> actions == [] || actions[0].kind == User
  {
  }

  lemma {:induction false} FirstSetNs(join: seq<Join>)
    requires join != []
    ensures SetNsAll(join) != [] && SetNsAll(join)[0] == SetNs(join[0].kind, join[0].path)
  {
    if |join| > 1 {
      FirstSetNs(join[..|join| - 1]);
    }
  }

  lemma {:induction false} FirstUnshare(flags: Flags, order: seq<Kind>)
    requires order != []
    ensures Contains(flags, order[0]) ==>
              Unshares(flags, order) != [] && Unshares(flags, order)[0] == Unshare(order[0])
    ensures forall a :: a in Unshares(flags, order) ==> Contains(flags, a.kind)
  {
    if |order| > 1 {
      FirstUnshare(flags, order[..|order| - 1]);
    }
  }

  lemma UserJoinsFirst(join: seq<Join>)
    requires InJoinOrder(join) && join != []
    ensures join[0].kind == User <==> HasKind(join, User)
  {
    if HasKind(join, User) {
      var i :| 0 <= i < |join| && join[i].kind == User;
      assert JoinPosition(join[0].kind) <= JoinPosition(join[i].kind);
    }
  }

  /** The order of the calls is right for a runtime without privileges as far as any order is: it can carry
      out a layout exactly if there is nothing to do, a user namespace is joined, or one is created and
      nothing is joined. */
  lemma RootlessExactly(layout: Layout)
    requires InJoinOrder(layout.join)
    ensures Allowed(false, Actions(layout))
            <==> Actions(layout) == [] || HasKind(layout.join, User)
                 || (layout.join == [] && Contains(layout.create, User))
  {
    AllowedFromTheFirst(Actions(layout));
    var flags := Without(layout.create, FlagFor(Cgroup));
    FirstUnshare(flags, UNSHARE_ORDER);
    assert UNSHARE_ORDER[0] == User;
    BitsDiffer(User, Cgroup);
    if layout.join != [] {
      FirstSetNs(layout.join);
      UserJoinsFirst(layout.join);
    } else if Contains(layout.create, User) {
      assert SetNsAll(layout.join) == [];
    } else {
      NoUserCalls(layout);
    }
  }

  lemma NoUserCalls(layout: Layout)
    requires layout.join == [] && !Contains(layout.create, User)
    ensures forall a :: a in Actions(layout) ==> a.kind != User
  {
    var flags := Without(layout.create, FlagFor(Cgroup));
    FirstUnshare(flags, UNSHARE_ORDER);
    assert SetNsAll(layout.join) == [];
  }

  function Pow2(n: nat): nat {
    if n == 0 then 1 else 2 * Pow2(n - 1)
  }

  lemma {:induction false} Pow2Adds(a: nat, b: nat)
    ensures Pow2(a + b) == Pow2(a) * Pow2(b)
  {
    if a > 0 {
      Pow2Adds(a - 1, b);
    }
  }

  /** The bits are those of the kernel's CLONE_NEW constants. */
  lemma FlagsAreTheKernels()
    ensures Pow2(Bit(Time)) == 0x80 && Pow2(Bit(Mount)) == 0x2_0000
    ensures Pow2(Bit(Cgroup)) == 0x200_0000 && Pow2(Bit(Uts)) == 0x400_0000 && Pow2(Bit(Ipc)) == 0x800_0000
    ensures Pow2(Bit(User)) == 0x1000_0000 && Pow2(Bit(Pid)) == 0x2000_0000 && Pow2(Bit(Network)) == 0x4000_0000
  {
    Pow2Adds(10, 7);
    Pow2Adds(8, 17);
    Pow2Adds(1, 25);
    Pow2Adds(1, 26);
    Pow2Adds(1, 27);
    Pow2Adds(1, 28);
    Pow2Adds(1, 29);
    assert Pow2(1) == 2 && Pow2(7) == 128 && Pow2(8) == 256 && Pow2(10) == 1024;
  }

  /** The bindings' own complement would lose the time namespace whenever one is requested. */
  lemma MaskingLosesTime(flags: Flags, k: Kind)
    requires Contains(flags, k) && k != Cgroup
    ensures Contains(Without(flags, FlagFor(Cgroup)), k)
    ensures Contains(MaskedOut(flags, FlagFor(Cgroup)), k) <==> k != Time
  {
  }

  // ----- where the paths of the joins are opened

  /** The path of join `i` is opened after the process has moved to another mount namespace. */
  ghost predicate OpenedInside(join: seq<Join>, i: nat)
    requires i < |join|
  {
    exists j :: 0 <= j < i && join[j].kind == Mount
  }

  ghost predicate HasKind(join: seq<Join>, k: Kind) {
    exists i :: 0 <= i < |join| && join[i].kind == k
  }

  /** No two joins of this kind. */
  ghost predicate OnlyOne(join: seq<Join>, k: Kind) {
    forall i, j :: 0 <= i < j < |join| && join[i].kind == k ==> join[j].kind != k
  }

  lemma {:induction false} CountedJoin(join: seq<Join>, k: Kind)
    ensures CountJoins(join, k) > 0 <==> HasKind(join, k)
    ensures CountJoins(join, k) <= 1 ==> OnlyOne(join, k)
  {
    if join != [] {
      CountedJoin(join[..|join| - 1], k);
      var front, last := join[..|join| - 1], join[|join| - 1];
      assert HasKind(join, k) <==> HasKind(front, k) || last.kind == k by {
        if last.kind == k { assert join[|join| - 1].kind == k; }
        if HasKind(front, k) {
          var i :| 0 <= i < |front| && front[i].kind == k;
          assert join[i].kind == k;
        }
        if HasKind(join, k) {
          var i :| 0 <= i < |join| && join[i].kind == k;
          assert i < |front| ==> front[i].kind == k;
        }
      }
    }
  }

  lemma JoinedWhenAsked(list: seq<Request>, k: Kind)
    requires NoDuplicates(list)
    ensures var join := SortJoins(Joined(list));
            (AsksToJoin(list, k) <==> HasKind(join, k)) && OnlyOne(join, k)
  {
    JoinedCounts(list, k);
    SortCounts(Joined(list), k);
    CountedJoin(SortJoins(Joined(list)), k);
  }

  lemma InsideIsAfterMount(join: seq<Join>, i: nat)
    requires InJoinOrder(join) && OnlyOne(join, Mount) && i < |join|
    ensures OpenedInside(join, i) ==> join[i].kind == Time
    ensures join[i].kind == Time && HasKind(join, Mount) ==> OpenedInside(join, i)
  {
    if OpenedInside(join, i) {
      var j :| 0 <= j < i && join[j].kind == Mount;
      assert JoinPosition(join[j].kind) <= JoinPosition(join[i].kind);
    }
    if join[i].kind == Time && HasKind(join, Mount) {
      var j :| 0 <= j < |join| && join[j].kind == Mount;
      assert j < i;
    }
  }

  /** Each path is opened just before its setns, so one of them is looked up inside the joined mount
      namespace exactly when both the mount and the time namespace are joined, and it is the time
      namespace's. */
  lemma OnlyTimeIsOpenedInside(list: seq<Request>, join: seq<Join>)
    requires NoDuplicates(list) && join == SortJoins(Joined(list))
    ensures (exists i :: 0 <= i < |join| && OpenedInside(join, i))
            <==> AsksToJoin(list, Mount) && AsksToJoin(list, Time)
    ensures forall i :: 0 <= i < |join| && OpenedInside(join, i) ==> join[i].kind == Time
  {
    SortJoinsOrders(Joined(list));
    JoinedWhenAsked(list, Mount);
    JoinedWhenAsked(list, Time);
    InsideExactlyWhen(join);
  }

  lemma InsideExactlyWhen(join: seq<Join>)
    requires InJoinOrder(join) && OnlyOne(join, Mount)
    ensures (exists i :: 0 <= i < |join| && OpenedInside(join, i)) <==> HasKind(join, Mount) && HasKind(join, Time)
    ensures forall i :: 0 <= i < |join| && OpenedInside(join, i) ==> join[i].kind == Time
  {
    forall i | 0 <= i < |join|
      ensures OpenedInside(join, i) <==> join[i].kind == Time && HasKind(join, Mount)
    {
      InsideIsAfterMount(join, i);
    }
  }
}
