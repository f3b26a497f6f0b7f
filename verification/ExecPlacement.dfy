/** Starting a second process in a running container: opening what lies on the host, joining, forking,
    and holding the child back until it is in the container's cgroup (src/container/exec.rs, `exec`,
    `collect`, `place`, `enter`). */
module ExecPlacement {
  import opened Wrappers
  import opened Namespaces
  import opened ExecWorld

  /** One exec: what the links of the runtime's own namespaces say where they can be read, whether the
      bundle's configuration can be read, the options that open something, and whether the container's
      cgroup is frozen (`--ignore-paused`). */
  datatype Plan = Plan(w: World, ours: Links, bundle: bool, processFile: bool, console: bool, pidFile: bool,
                       frozen: bool)

  ghost predicate Sane(plan: Plan) {
    forall k :: k in plan.ours ==> k in plan.w.own && plan.ours[k] == plan.w.own[k]
  }

  /** What `collect` decides to join. */
  function JoinsOf(plan: Plan): seq<Kind> {
    Chosen(ORDER, plan.ours, plan.w.theirs)
  }

  // ----- the order of the calls

  function When(wanted: bool, event: Event): seq<Event> {
    if wanted then [event] else []
  }

  function NsLinks(kinds: seq<Kind>): (events: seq<Event>)
    ensures |events| == |kinds| && forall i :: 0 <= i < |events| ==> events[i] == Open(NsLink(kinds[i]))
  {
    seq(|kinds|, i requires 0 <= i < |kinds| => Open(NsLink(kinds[i])))
  }

  function Joining(kinds: seq<Kind>): (events: seq<Event>)
    ensures |events| == |kinds| && forall i :: 0 <= i < |events| ==> events[i] == JoinNs(kinds[i])
  {
    seq(|kinds|, i requires 0 <= i < |kinds| => JoinNs(kinds[i]))
  }

  function FirstOpens(plan: Plan): seq<Event> {
    When(plan.bundle, Open(BundleConfig)) + When(plan.processFile, Open(ProcessFile)) + [Open(OwnTasks)]
  }

  function LastOpens(plan: Plan): seq<Event> {
    When(plan.console, Open(Console)) + [Open(CgroupProcs)] + When(plan.pidFile, Open(PidFile))
  }

  function Opens(plan: Plan): (events: seq<Event>)
    ensures forall e :: e in events ==> e.Open?
    ensures forall k :: Open(NsLink(k)) in events <==> k in JoinsOf(plan)
    ensures Open(CgroupProcs) in events && (plan.pidFile ==> Open(PidFile) in events)
  {
    var links := NsLinks(JoinsOf(plan));
    assert forall k :: Open(NsLink(k)) in links <==> k in JoinsOf(plan) by {
      forall k | k in JoinsOf(plan) ensures Open(NsLink(k)) in links {
        var i :| 0 <= i < |JoinsOf(plan)| && JoinsOf(plan)[i] == k;
        assert links[i] == Open(NsLink(k));
      }
    }
    FirstOpens(plan) + links + LastOpens(plan)
  }

  /** What is opened on the host: the links to join, the container's cgroup.procs and the runtime's own
      tasks always, and the rest exactly where the options or the bundle give it. */
  lemma OpensExactly(plan: Plan, path: HostPath)
    ensures Open(path) in Opens(plan)
            <==> match path
                 case BundleConfig => plan.bundle
                 case ProcessFile => plan.processFile
                 case OwnTasks => true
                 case NsLink(k) => k in JoinsOf(plan)
                 case Console => plan.console
                 case CgroupProcs => true
                 case PidFile => plan.pidFile
  {
    var links := NsLinks(JoinsOf(plan));
    assert forall e :: e in links ==> e.Open? && e.path.NsLink?;
    assert Opens(plan) == FirstOpens(plan) + links + LastOpens(plan);
    assert Open(path) in Opens(plan) <==> Open(path) in FirstOpens(plan) || Open(path) in links || Open(path) in LastOpens(plan);
  }

  function Before(plan: Plan): seq<Event> {
    Opens(plan) + Joining(JoinsOf(plan))
  }

  function Rest(plan: Plan): seq<Event> {
    [BlockSignals, Fork, Place, SendApplied] + When(plan.pidFile, WritePidFile)
  }

  /** What the parent does, in order, as long as nothing fails. */
  function Script(plan: Plan): seq<Event> {
    Before(plan) + Rest(plan)
  }

  // ----- the code that keeps to this order

  lemma {:induction false} ChosenGrows(order: seq<Kind>, n: nat, ours: Links, theirs: Links)
    requires n <= |order|
    ensures Chosen(order[..n], ours, theirs) <= Chosen(order, ours, theirs)
    decreases |order|
  {
    if n < |order| {
      var front := order[..|order| - 1];
      ChosenGrows(front, n, ours, theirs);
      assert front[..n] == order[..n];
    } else {
      assert order[..n] == order;
    }
  }

  /** The namespace that `collect` finds next is the next of the plan. */
  lemma NextJoin(plan: Plan, i: nat, joins: seq<Kind>)
    requires i < |ORDER| && joins == Chosen(ORDER[..i], plan.ours, plan.w.theirs)
    requires Differs(plan.ours, plan.w.theirs, ORDER[i])
    ensures |joins| < |JoinsOf(plan)| && JoinsOf(plan)[|joins|] == ORDER[i]
    ensures joins + [ORDER[i]] == Chosen(ORDER[..i + 1], plan.ours, plan.w.theirs)
  {
    ChosenGrows(ORDER, i + 1, plan.ours, plan.w.theirs);
    assert ORDER[..i + 1][..i] == ORDER[..i];
    assert Chosen(ORDER[..i + 1], plan.ours, plan.w.theirs) == joins + [ORDER[i]];
  }

  lemma SkippedJoin(plan: Plan, i: nat)
    requires i < |ORDER|
    ensures !Differs(plan.ours, plan.w.theirs, ORDER[i]) ==>
              Chosen(ORDER[..i + 1], plan.ours, plan.w.theirs) == Chosen(ORDER[..i], plan.ours, plan.w.theirs)
  {
    assert ORDER[..i + 1][..i] == ORDER[..i];
  }

  lemma LinksInPart(joins: seq<Kind>, n: nat, after: seq<Event>)
    requires n < |joins|
    ensures NsLinks(joins[n..]) + after == [Open(NsLink(joins[n]))] + (NsLinks(joins[n + 1..]) + after)
  {
  }

  lemma JoinsInPart(joins: seq<Kind>, n: nat, after: seq<Event>)
    requires n < |joins|
    ensures Joining(joins[n..]) + after == [JoinNs(joins[n])] + (Joining(joins[n + 1..]) + after)
  {
  }

  lemma OneMoved(did: seq<Event>, e: Event, after: seq<Event>)
    ensures did + ([e] + after) == (did + [e]) + after && [e] + after != []
  {
  }

  class Runtime {
    const plan: Plan
    var p: Process
    var did: seq<Event>
    ghost const script: seq<Event>
    ghost var todo: seq<Event>     // what is left of the script

    ghost predicate Valid()
      reads this
    {
      Perform(plan.w, did) == Some(p) && did + todo == script
    }

    constructor (plan: Plan)
      ensures Valid() && this.plan == plan && did == [] && script == Script(plan)
    {
      this.plan, this.p, this.did := plan, Begin(plan.w), [];
      this.script, this.todo := Script(plan), Script(plan);
    }

    /** One system call, which may fail for reasons of its own. */
    method Call(e: Event, ghost after: seq<Event>) returns (ok: bool)
      requires Valid() && todo == [e] + after
      modifies this
      ensures Valid() && if ok then todo == after else todo != []
    {
      var broken: bool := *;
      var next := Do(plan.w, p, e);
      if broken || next.None? {
        return false;
      }
      PerformSnoc(plan.w, did, e);
      OneMoved(did, e, after);
      p, did := next.value, did + [e];
      todo := after;
      ok := true;
    }

    /** A read that exec goes on without when it fails, as it does exactly if the bundle is unreadable. */
    method TryBundle(ghost after: seq<Event>)
      requires Valid() && todo == When(plan.bundle, Open(BundleConfig)) + after
      modifies this
      ensures Valid() && todo == after
    {
      if !plan.bundle {
        assert [] + after == after;
        return;
      }
      PerformSnoc(plan.w, did, Open(BundleConfig));
      OneMoved(did, Open(BundleConfig), after);
      p, did := Do(plan.w, p, Open(BundleConfig)).value, did + [Open(BundleConfig)];
      todo := after;
    }

    method CallIf(wanted: bool, e: Event, ghost after: seq<Event>) returns (ok: bool)
      requires Valid() && todo == When(wanted, e) + after
      modifies this
      ensures Valid() && if ok then todo == after else todo != []
    {
      if !wanted {
        assert [] + after == after;
        return true;
      }
      ok := Call(e, after);
    }

    method OpenFirst(ghost after: seq<Event>) returns (ok: bool)
      requires Valid() && todo == FirstOpens(plan) + after
      modifies this
      ensures Valid() && if ok then todo == after else todo != []
    {
      ghost var third := [Open(OwnTasks)] + after;
      ghost var second := When(plan.processFile, Open(ProcessFile)) + third;
      assert FirstOpens(plan) + after == When(plan.bundle, Open(BundleConfig)) + second;
      TryBundle(second);
      ok := CallIf(plan.processFile, Open(ProcessFile), third);
      if !ok { return; }
      ok := Call(Open(OwnTasks), after);
    }

    /** One link that `collect` keeps. */
    method OpenLink(i: nat, joins: seq<Kind>, ghost after: seq<Event>) returns (ok: bool, more: seq<Kind>)
      requires Valid() && i < |ORDER| && joins == Chosen(ORDER[..i], plan.ours, plan.w.theirs)
      requires Differs(plan.ours, plan.w.theirs, ORDER[i]) && |joins| <= |JoinsOf(plan)|
      requires todo == NsLinks(JoinsOf(plan)[|joins|..]) + after
      modifies this
      ensures Valid() && (!ok ==> todo != [])
      ensures ok ==> more == Chosen(ORDER[..i + 1], plan.ours, plan.w.theirs) && |more| <= |JoinsOf(plan)|
                     && todo == NsLinks(JoinsOf(plan)[|more|..]) + after
    {
      NextJoin(plan, i, joins);
      LinksInPart(JoinsOf(plan), |joins|, after);
      more := joins + [ORDER[i]];
      ok := Call(Open(NsLink(ORDER[i])), NsLinks(JoinsOf(plan)[|joins| + 1..]) + after);
    }

    /** `collect`: every namespace of the fixed order that differs, its link opened as it is found. */
    method Collect(ghost after: seq<Event>) returns (ok: bool, joins: seq<Kind>)
      requires Valid() && todo == NsLinks(JoinsOf(plan)) + after
      modifies this
      ensures Valid() && if ok then todo == after && joins == JoinsOf(plan) else todo != []
    {
      joins := [];
      assert JoinsOf(plan)[0..] == JoinsOf(plan);
      for i := 0 to |ORDER|
        invariant Valid()
        invariant joins == Chosen(ORDER[..i], plan.ours, plan.w.theirs) && |joins| <= |JoinsOf(plan)|
        invariant todo == NsLinks(JoinsOf(plan)[|joins|..]) + after
      {
        var kind := ORDER[i];
        SkippedJoin(plan, i);
        if kind !in plan.w.theirs {
          continue;
        }
        if kind in plan.ours && plan.ours[kind] == plan.w.theirs[kind] {
          continue;
        }
        ok, joins := OpenLink(i, joins, after);
        if !ok {
          return;
        }
      }
      assert ORDER[..|ORDER|] == ORDER;
      assert NsLinks(JoinsOf(plan)[|joins|..]) + after == after;
      ok := true;
    }

    method OpenLast(ghost after: seq<Event>) returns (ok: bool)
      requires Valid() && todo == LastOpens(plan) + after
      modifies this
      ensures Valid() && if ok then todo == after else todo != []
    {
      ghost var third := When(plan.pidFile, Open(PidFile)) + after;
      ghost var second := [Open(CgroupProcs)] + third;
      assert LastOpens(plan) + after == When(plan.console, Open(Console)) + second;
      ok := CallIf(plan.console, Open(Console), second);
      if !ok { return; }
      ok := Call(Open(CgroupProcs), third);
      if !ok { return; }
      ok := CallIf(plan.pidFile, Open(PidFile), after);
    }

    method JoinAll(joins: seq<Kind>, ghost after: seq<Event>) returns (ok: bool)
      requires Valid() && todo == Joining(joins) + after
      modifies this
      ensures Valid() && if ok then todo == after else todo != []
    {
      assert joins[0..] == joins;
      for i := 0 to |joins|
        invariant Valid() && todo == Joining(joins[i..]) + after
      {
        JoinsInPart(joins, i, after);
        ok := Call(JoinNs(joins[i]), Joining(joins[i + 1..]) + after);
        if !ok { return; }
      }
      assert Joining(joins[|joins|..]) + after == after;
      ok := true;
    }

    method ForkAndPlace() returns (ok: bool)
      requires Valid() && todo == Rest(plan)
      modifies this
      ensures Valid() && if ok then todo == [] else todo != []
    {
      ghost var last := When(plan.pidFile, WritePidFile);
      assert Rest(plan) == [BlockSignals] + ([Fork] + ([Place] + ([SendApplied] + last)));
      ok := Call(BlockSignals, [Fork] + ([Place] + ([SendApplied] + last)));
      if !ok { return; }
      ok := Call(Fork, [Place] + ([SendApplied] + last));
      if !ok { return; }
      ok := Call(Place, [SendApplied] + last);
      if !ok { return; }
      ok := Call(SendApplied, last);
      if !ok { return; }
      assert last + [] == last;
      ok := CallIf(plan.pidFile, WritePidFile, []);
    }

    /** `exec`, up to the wait: it ends well if it has made every call of the script, and otherwise it
        has made a proper beginning of them. */
    method Exec() returns (ok: bool)
      requires Valid() && did == [] && script == Script(plan)
      modifies this
      ensures Valid()
      ensures if ok then did == Script(plan) else did < Script(plan)
    {
      ghost var afterOpens := Joining(JoinsOf(plan)) + Rest(plan);
      ghost var afterCollect := LastOpens(plan) + afterOpens;
      ScriptInParts(plan);
      assert [] + todo == todo;
      ok := OpenFirst(NsLinks(JoinsOf(plan)) + afterCollect);
      if !ok { return; }
      var joins: seq<Kind>;
      ok, joins := Collect(afterCollect);
      if !ok { return; }
      ok := OpenLast(afterOpens);
      if !ok { return; }
      ok := JoinAll(joins, Rest(plan));
      if !ok { return; }
      ok := ForkAndPlace();
      assert ok ==> did + [] == did;
    }
  }

  lemma ScriptInParts(plan: Plan)
    ensures Script(plan) == FirstOpens(plan)
              + (NsLinks(JoinsOf(plan)) + (LastOpens(plan) + (Joining(JoinsOf(plan)) + Rest(plan))))
  {
  }

  // ----- what the script does to the process

  lemma ScriptLength(plan: Plan)
    ensures |Script(plan)| == |Before(plan)| + if plan.pidFile then 5 else 4
    ensures |Before(plan)| == |Opens(plan)| + |JoinsOf(plan)|
  {
  }

  lemma ScriptAt(plan: Plan, n: nat)
    requires n < |Script(plan)|
    ensures var event, fork := Script(plan)[n], |Before(plan)| + 1;
            && (n < |Opens(plan)| ==> event == Opens(plan)[n] && event.Open?)
            && (event.Open? ==> n < |Opens(plan)|)
            && (|Opens(plan)| <= n < |Before(plan)| ==> event == JoinNs(JoinsOf(plan)[n - |Opens(plan)|]))
            && (event.JoinNs? ==> |Opens(plan)| <= n < |Before(plan)|)
            && (event.BlockSignals? <==> n == fork - 1)
            && (event.Fork? <==> n == fork)
            && (event.Place? <==> n == fork + 1)
            && (event.SendApplied? <==> n == fork + 2)
            && (event.WritePidFile? <==> n == fork + 3) && (event.WritePidFile? ==> plan.pidFile)
            && OfParent(event)
  {
    if n < |Opens(plan)| {
      assert Script(plan)[n] == Opens(plan)[n];
    } else if n < |Before(plan)| {
      assert Script(plan)[n] == Joining(JoinsOf(plan))[n - |Opens(plan)|];
    } else {
      assert Script(plan)[n] == Rest(plan)[n - |Before(plan)|];
    }
  }

  lemma OneMore(script: seq<Event>, n: nat)
    requires n < |script|
    ensures script[..n + 1] == script[..n] + [script[n]]
  {
  }

  lemma {:induction false} OpensPerform(w: World, events: seq<Event>)
    requires forall e :: e in events ==> e.Open? && (e.path.NsLink? ==> e.path.kind in w.theirs)
    ensures Perform(w, events).Some?
    ensures var p := Perform(w, events).value;
            && p.ns == w.own && p.admin == w.privileged && p.placedIn.None? && p.pidWrittenTo.None?
            && forall path :: Open(path) in events ==>
                 path in p.open && Some(p.open[path]) == Lookup(w, In(w.own, Mount), path)
  {
    if events != [] {
      var front, e := events[..|events| - 1], events[|events| - 1];
      OpensPerform(w, front);
      assert e in events && events == front + [e];
    }
  }

  /** The process after `n` calls of the script: every handle is what its path names on the host. */
  ghost predicate Follows(plan: Plan, n: nat, p: Process) {
    var host := In(plan.w.own, Mount);
    && (n >= |Opens(plan)| ==> forall path :: Open(path) in Opens(plan) ==>
          path in p.open && Some(p.open[path]) == Lookup(plan.w, host, path))
    && p.placedIn == (if n > |Before(plan)| + 2 then Some(Named(host, CgroupProcs)) else None)
    && p.pidWrittenTo == (if n > |Before(plan)| + 4 then Some(Named(host, PidFile)) else None)
  }

  lemma OpenedInPart(plan: Plan, n: nat)
    requires n <= |Opens(plan)|
    ensures Perform(plan.w, Opens(plan)[..n]).Some? && Follows(plan, n, Perform(plan.w, Opens(plan)[..n]).value)
    ensures Perform(plan.w, Opens(plan)[..n]).value.admin == plan.w.privileged
  {
    JoinsDiffering(plan.ours, plan.w.theirs);
    forall e | e in Opens(plan)[..n] ensures e.Open? && (e.path.NsLink? ==> e.path.kind in plan.w.theirs) {
      assert e in Opens(plan);
      if e.path.NsLink? {
        assert e == Open(NsLink(e.path.kind));
      }
    }
    OpensPerform(plan.w, Opens(plan)[..n]);
    if n == |Opens(plan)| {
      assert Opens(plan)[..n] == Opens(plan);
    }
  }

  lemma OpensFollow(plan: Plan, n: nat)
    requires n <= |Opens(plan)|
    ensures n <= |Script(plan)| && Perform(plan.w, Script(plan)[..n]).Some?
    ensures Follows(plan, n, Perform(plan.w, Script(plan)[..n]).value)
    ensures Perform(plan.w, Script(plan)[..n]).value.admin == plan.w.privileged
  {
    ScriptLength(plan);
    OpensBegin(plan, n);
    OpenedInPart(plan, n);
  }

  lemma OpensBegin(plan: Plan, n: nat)
    requires n <= |Opens(plan)| <= |Script(plan)|
    ensures Script(plan)[..n] == Opens(plan)[..n]
  {
  }

  /** The runtime may make the joins of its plan: it has the capability, gets it with the first of them,
      or there is none. */
  predicate Able(plan: Plan) {
    plan.w.privileged || User in JoinsOf(plan) || JoinsOf(plan) == []
  }

  lemma JoinFollows(plan: Plan, n: nat, p: Process)
    requires |Opens(plan)| <= n < |Before(plan)| && Follows(plan, n, p)
    ensures n < |Script(plan)| && Script(plan)[n] == JoinNs(JoinsOf(plan)[n - |Opens(plan)|])
    ensures var next := Do(plan.w, p, Script(plan)[n]);
            && (next.Some? <==> JoinsOf(plan)[n - |Opens(plan)|] == User || p.admin)
            && (next.Some? ==> Follows(plan, n + 1, next.value))
  {
    ScriptLength(plan);
    ScriptAt(plan, n);
    JoinsDiffering(plan.ours, plan.w.theirs);
    var k := JoinsOf(plan)[n - |Opens(plan)|];
    assert k in JoinsOf(plan) && Open(NsLink(k)) in Opens(plan);
  }

  lemma RestFollows(plan: Plan, n: nat, p: Process)
    requires |Before(plan)| <= n < |Script(plan)| && Follows(plan, n, p)
    ensures Do(plan.w, p, Script(plan)[n]).Some?
    ensures Follows(plan, n + 1, Do(plan.w, p, Script(plan)[n]).value)
  {
    ScriptLength(plan);
    ScriptAt(plan, n);
    assert Open(CgroupProcs) in Opens(plan) && (plan.pidFile ==> Open(PidFile) in Opens(plan));
  }

  lemma NextCall(plan: Plan, n: nat)
    requires n < |Script(plan)|
    ensures Perform(plan.w, Script(plan)[..n + 1])
            == if Perform(plan.w, Script(plan)[..n]).None? then None
               else Do(plan.w, Perform(plan.w, Script(plan)[..n]).value, Script(plan)[n])
  {
    OneMore(Script(plan), n);
    PerformSnoc(plan.w, Script(plan)[..n], Script(plan)[n]);
  }

  /** As far as the script can be carried out, the process is as `Follows` says. */
  lemma PerformedFollows(plan: Plan, n: nat)
    requires n <= |Script(plan)|
    ensures FollowsIfPerformed(plan, n, Perform(plan.w, Script(plan)[..n]))
  {
    if n <= |Opens(plan)| {
      OpensFollow(plan, n);
    } else {
      OpensFollow(plan, |Opens(plan)|);
      for i := |Opens(plan)| to n
        invariant FollowsIfPerformed(plan, i, Perform(plan.w, Script(plan)[..i]))
      {
        PerformedStep(plan, i);
      }
    }
  }

  lemma PerformedStep(plan: Plan, n: nat)
    requires |Opens(plan)| <= n < |Script(plan)|
    requires FollowsIfPerformed(plan, n, Perform(plan.w, Script(plan)[..n]))
    ensures FollowsIfPerformed(plan, n + 1, Perform(plan.w, Script(plan)[..n + 1]))
  {
    NextCall(plan, n);
    OneCallFollows(plan, n, Perform(plan.w, Script(plan)[..n]), Perform(plan.w, Script(plan)[..n + 1]));
  }

  ghost predicate FollowsIfPerformed(plan: Plan, n: nat, p: Option<Process>) {
    p.Some? ==> Follows(plan, n, p.value)
  }

  lemma OneCallFollows(plan: Plan, n: nat, p: Option<Process>, q: Option<Process>)
    requires |Opens(plan)| <= n < |Script(plan)| && FollowsIfPerformed(plan, n, p)
    requires q == if p.None? then None else Do(plan.w, p.value, Script(plan)[n])
    ensures FollowsIfPerformed(plan, n + 1, q)
  {
    if q.Some? {
      MadeCallFollows(plan, n, p.value);
    }
  }

  lemma MadeCallFollows(plan: Plan, n: nat, p: Process)
    requires |Opens(plan)| <= n < |Script(plan)| && Follows(plan, n, p)
    ensures Do(plan.w, p, Script(plan)[n]).Some? ==> Follows(plan, n + 1, Do(plan.w, p, Script(plan)[n]).value)
  {
    if n < |Before(plan)| {
      JoinFollows(plan, n, p);
    } else {
      RestFollows(plan, n, p);
    }
  }

  /** After the first join an able runtime has the capability. */
  lemma AdminAfterFirst(plan: Plan, n: nat)
    requires |Opens(plan)| <= n < |Before(plan)| <= |Script(plan)| && Able(plan)
    requires Perform(plan.w, Script(plan)[..n]).Some?
    ensures JoinsOf(plan)[n - |Opens(plan)|] == User || Perform(plan.w, Script(plan)[..n]).value.admin
  {
    ScriptLength(plan);
    NamespacesAfter(plan.w, Script(plan)[..n]);
    JoinsInOrder(plan.ours, plan.w.theirs);
    if n > |Opens(plan)| && !plan.w.privileged {
      ScriptAt(plan, |Opens(plan)|);
      assert Script(plan)[..n][|Opens(plan)|] == JoinNs(User);
    }
  }

  /** Every call of the script can be made by an able runtime. */
  lemma {:induction false} ScriptPerforms(plan: Plan, n: nat)
    requires n <= |Script(plan)| && Able(plan)
    ensures Perform(plan.w, Script(plan)[..n]).Some?
    ensures Follows(plan, n, Perform(plan.w, Script(plan)[..n]).value)
  {
    if n <= |Opens(plan)| {
      OpensFollow(plan, n);
    } else {
      ScriptPerforms(plan, n - 1);
      AbleCall(plan, n - 1);
    }
  }

  lemma AbleCall(plan: Plan, n: nat)
    requires |Opens(plan)| <= n < |Script(plan)| && Able(plan)
    requires Perform(plan.w, Script(plan)[..n]).Some?
    requires Follows(plan, n, Perform(plan.w, Script(plan)[..n]).value)
    ensures Perform(plan.w, Script(plan)[..n + 1]).Some?
    ensures Follows(plan, n + 1, Perform(plan.w, Script(plan)[..n + 1]).value)
  {
    NextCall(plan, n);
    var p := Perform(plan.w, Script(plan)[..n]).value;
    if n < |Before(plan)| {
      ScriptLength(plan);
      AdminAfterFirst(plan, n);
      JoinFollows(plan, n, p);
    } else {
      RestFollows(plan, n, p);
    }
  }

  /** And by no other: so the order of the joins is right for a runtime without privileges, as far as any
      order is. What has been performed has reached the host's files, the pid file if there is one. */
  lemma ScriptPerformsExactly(plan: Plan)
    ensures Perform(plan.w, Script(plan)).Some? <==> Able(plan)
    ensures Able(plan) ==>
              var p, host := Perform(plan.w, Script(plan)).value, In(plan.w.own, Mount);
              && p.placedIn == Some(Named(host, CgroupProcs))
              && p.pidWrittenTo == if plan.pidFile then Some(Named(host, PidFile)) else None
  {
    var all := |Script(plan)|;
    assert Script(plan)[..all] == Script(plan);
    ScriptLength(plan);
    if Able(plan) {
      ScriptPerforms(plan, all);
    } else {
      FirstJoinFails(plan);
      if Perform(plan.w, Script(plan)).Some? {
        PrefixPerforms(plan, |Opens(plan)| + 1, all);
      }
    }
  }

  lemma FirstJoinFails(plan: Plan)
    requires !Able(plan)
    ensures |Opens(plan)| < |Script(plan)| && Perform(plan.w, Script(plan)[..|Opens(plan)| + 1]).None?
  {
    OpensFollow(plan, |Opens(plan)|);
    RefusedAfter(plan, |Opens(plan)|, Perform(plan.w, Script(plan)[..|Opens(plan)|]).value);
  }

  lemma RefusedAfter(plan: Plan, n: nat, p: Process)
    requires !Able(plan) && n == |Opens(plan)| <= |Script(plan)| && Follows(plan, n, p)
    requires p.admin == plan.w.privileged && Perform(plan.w, Script(plan)[..n]) == Some(p)
    ensures n < |Script(plan)| && Perform(plan.w, Script(plan)[..n + 1]).None?
  {
    FirstJoinRefused(plan, p);
    NextCall(plan, n);
  }

  lemma FirstJoinRefused(plan: Plan, p: Process)
    requires !Able(plan) && Follows(plan, |Opens(plan)|, p) && p.admin == plan.w.privileged
    ensures |Opens(plan)| < |Script(plan)| && Do(plan.w, p, Script(plan)[|Opens(plan)|]).None?
  {
    ScriptLength(plan);
    JoinFollows(plan, |Opens(plan)|, p);
    assert JoinsOf(plan)[0] in JoinsOf(plan);
  }

  lemma PreviousPerforms(plan: Plan, n: nat)
    requires n < |Script(plan)| && Perform(plan.w, Script(plan)[..n + 1]).Some?
    ensures Perform(plan.w, Script(plan)[..n]).Some?
  {
    NextCall(plan, n);
  }

  lemma {:induction false} PrefixPerforms(plan: Plan, n: nat, m: nat)
    requires n <= m <= |Script(plan)| && Perform(plan.w, Script(plan)[..m]).Some?
    ensures Perform(plan.w, Script(plan)[..n]).Some?
    decreases m
  {
    if n < m {
      PreviousPerforms(plan, m - 1);
      PrefixPerforms(plan, n, m - 1);
    }
  }

  /** Where a process forked by the script is: in the container's namespace of every kind but time, and
      there in the runtime's. */
  ghost predicate InTheContainer(plan: Plan, links: Links) {
    && (forall k: Kind :: k != Time ==>
          In(links, k) == if k in plan.w.theirs then plan.w.theirs[k] else In(plan.w.own, k))
    && In(links, Time) == In(plan.w.own, Time)
  }

  lemma JoinsInScript(plan: Plan, n: nat, k: Kind)
    requires |Before(plan)| <= n <= |Script(plan)|
    ensures JoinNs(k) in Script(plan)[..n] <==> k in JoinsOf(plan)
  {
    if JoinNs(k) in Script(plan)[..n] {
      var i :| 0 <= i < n && Script(plan)[i] == JoinNs(k);
      ScriptAt(plan, i);
    }
    if k in JoinsOf(plan) {
      var i :| 0 <= i < |JoinsOf(plan)| && JoinsOf(plan)[i] == k;
      ScriptLength(plan);
      ScriptAt(plan, |Opens(plan)| + i);
      assert Script(plan)[..n][|Opens(plan)| + i] == JoinNs(k);
    }
  }

  lemma ChildIsInTheContainer(plan: Plan, n: nat)
    requires Sane(plan) && |Before(plan)| <= n <= |Script(plan)|
    requires Perform(plan.w, Script(plan)[..n]).Some?
    ensures InTheContainer(plan, ChildNamespaces(Perform(plan.w, Script(plan)[..n]).value))
  {
    NamespacesAfter(plan.w, Script(plan)[..n]);
    JoinsDiffering(plan.ours, plan.w.theirs);
    forall k: Kind ensures JoinNs(k) in Script(plan)[..n] <==> k in JoinsOf(plan) {
      JoinsInScript(plan, n, k);
    }
  }

  // ----- the two processes

  datatype Child = Unborn | Waiting | Entering | Executing | Executed | Exited

  /** `inside` are the namespaces of the child. */
  datatype State = State(done: nat, parentOpen: bool, queued: bool, child: Child, inside: Links, p: Process,
                         trace: seq<Event>)

  function Start(plan: Plan): State {
    State(0, true, false, Unborn, plan.w.own, Begin(plan.w), [])
  }

  datatype Choice = ParentGoes | ParentEnds | ChildGoes | ChildEnds

  /** A child in a frozen cgroup makes no step of its own. */
  predicate Held(plan: Plan, s: State) {
    plan.frozen && s.p.placedIn.Some?
  }

  predicate ChildLives(s: State) {
    s.child.Waiting? || s.child.Entering? || s.child.Executing?
  }

  /** What can happen next. The parent may fail, return or be killed at any step, which closes its end of
      the channel; the child may fail or be killed. It cannot go past its `recv` while the channel is
      empty and the parent holds the other end. */
  predicate Enabled(plan: Plan, s: State, c: Choice) {
    match c
    case ParentGoes => s.parentOpen && s.done < |Script(plan)|
    case ParentEnds => s.parentOpen
    case ChildGoes => ChildLives(s) && !Held(plan, s) && (s.child.Waiting? ==> s.queued || !s.parentOpen)
    case ChildEnds => ChildLives(s)
  }

  function Step(plan: Plan, s: State, c: Choice): State
    requires Enabled(plan, s, c)
  {
    match c
    case ParentGoes => (
      var event := Script(plan)[s.done];
      match Do(plan.w, s.p, event)
      case None => s.(parentOpen := false)
      case Some(p) =>
        var t := s.(done := s.done + 1, p := p, trace := s.trace + [event]);
        if event.Fork? then t.(child := Waiting, inside := ChildNamespaces(p))
        else if event.SendApplied? then t.(queued := true)
        else t)
    case ParentEnds => s.(parentOpen := false)
    case ChildEnds => s.(child := Exited)
    case ChildGoes =>
      match s.child
      case Waiting => if s.queued then s.(queued := false, child := Entering) else s.(child := Exited)
      case Entering => s.(child := Executing, trace := s.trace + [Enter])
      case _ => s.(child := Executed, trace := s.trace + [Execute])
  }

  /** The state after a run of choices; one that is not enabled changes nothing. */
  function Reached(plan: Plan, choices: seq<Choice>): State {
    if choices == [] then Start(plan)
    else
      var s := Reached(plan, choices[..|choices| - 1]);
      var c := choices[|choices| - 1];
      if Enabled(plan, s, c) then Step(plan, s, c) else s
  }

  // ----- invariant

  predicate OfParent(e: Event) {
    !e.Enter? && !e.Execute?
  }

  /** The parent's part of a trace. */
  function Parents(trace: seq<Event>): seq<Event> {
    if trace == [] then []
    else
      var before := Parents(trace[..|trace| - 1]);
      if OfParent(trace[|trace| - 1]) then before + [trace[|trace| - 1]] else before
  }

  lemma ParentsGrow(trace: seq<Event>, e: Event)
    ensures Parents(trace + [e]) == if OfParent(e) then Parents(trace) + [e] else Parents(trace)
  {
    assert (trace + [e])[..|trace|] == trace;
  }

  lemma {:induction false} ParentsAreInTheTrace(trace: seq<Event>, e: Event)
    ensures e in Parents(trace) <==> e in trace && OfParent(e)
  {
    if trace != [] {
      ParentsAreInTheTrace(trace[..|trace| - 1], e);
    }
  }

  ghost predicate FirstComes(trace: seq<Event>, earlier: Event, later: Event) {
    forall i :: 0 <= i < |trace| && trace[i] == later ==> earlier in trace[..i]
  }

  /** Where the parent stands, and what that means for the child and the packet. */
  ghost predicate Counted(plan: Plan, s: State) {
    var fork := |Before(plan)| + 1;
    && s.done <= |Script(plan)|
    && (s.child.Unborn? <==> s.done <= fork)
    && (s.queued ==> s.done > fork + 2)
    && (s.child.Waiting? && s.done > fork + 2 ==> s.queued)
    && (s.child.Entering? || s.child.Executing? || s.child.Executed? ==> s.done > fork + 2)
  }

  /** What the trace has of either process. */
  ghost predicate Traced(plan: Plan, s: State)
    requires s.done <= |Script(plan)|
  {
    && Parents(s.trace) == Script(plan)[..s.done]
    && Perform(plan.w, Script(plan)[..s.done]) == Some(s.p)
    && (Execute in s.trace ==> s.child.Executed?)
    && (Enter in s.trace ==> s.done > |Before(plan)| + 3)
    && FirstComes(s.trace, Place, Enter) && FirstComes(s.trace, Place, Execute)
  }

  ghost predicate Inv(plan: Plan, s: State) {
    && Counted(plan, s)
    && Traced(plan, s)
    && (!s.child.Unborn? ==> InTheContainer(plan, s.inside))
  }

  /** The parent has done the events of its script before its position, and no others. */
  lemma DidAt(plan: Plan, s: State, n: nat)
    requires Inv(plan, s) && |Before(plan)| <= n < |Before(plan)| + if plan.pidFile then 5 else 4
    ensures n < |Script(plan)| && (Script(plan)[n] in s.trace <==> n < s.done)
  {
    ScriptLength(plan);
    ScriptAt(plan, n);
    var event := Script(plan)[n];
    ParentsAreInTheTrace(s.trace, event);
    if n < s.done {
      assert Script(plan)[..s.done][n] == event;
    } else if event in s.trace {
      var m :| 0 <= m < s.done && Script(plan)[m] == event;
      ScriptAt(plan, m);
    }
  }

  lemma FirstComesGrows(trace: seq<Event>, e: Event, earlier: Event, later: Event)
    requires FirstComes(trace, earlier, later)
    requires e == later ==> earlier in trace
    ensures FirstComes(trace + [e], earlier, later)
  {
    assert forall i :: 0 <= i <= |trace| ==> (trace + [e])[..i] == trace[..i];
    assert trace[..|trace|] == trace;
  }

  lemma ParentKeepsOrder(trace: seq<Event>, event: Event)
    requires OfParent(event) && FirstComes(trace, Place, Enter) && FirstComes(trace, Place, Execute)
    ensures FirstComes(trace + [event], Place, Enter) && FirstComes(trace + [event], Place, Execute)
    ensures Execute in trace + [event] ==> Execute in trace
    ensures Enter in trace + [event] ==> Enter in trace
  {
    FirstComesGrows(trace, event, Place, Enter);
    FirstComesGrows(trace, event, Place, Execute);
  }

  lemma ParentCounts(plan: Plan, s: State)
    requires Counted(plan, s) && Enabled(plan, s, ParentGoes)
    requires Do(plan.w, s.p, Script(plan)[s.done]).Some?
    ensures Counted(plan, Step(plan, s, ParentGoes))
  {
    ScriptAt(plan, s.done);
  }

  /** What a call of the parent adds to what it has performed. */
  lemma ParentPerforms(plan: Plan, s: State)
    requires Inv(plan, s) && s.done < |Script(plan)|
    ensures Perform(plan.w, Script(plan)[..s.done + 1]) == Do(plan.w, s.p, Script(plan)[s.done])
    ensures Parents(s.trace + [Script(plan)[s.done]]) == Script(plan)[..s.done + 1]
  {
    NextCall(plan, s.done);
    OneMore(Script(plan), s.done);
    ScriptAt(plan, s.done);
    ParentsGrow(s.trace, Script(plan)[s.done]);
  }

  /** None of an able parent's calls fails for want of a handle or of the capability. */
  lemma ParentIsNotRefused(plan: Plan, s: State)
    requires Inv(plan, s) && s.done < |Script(plan)| && Able(plan)
    ensures Do(plan.w, s.p, Script(plan)[s.done]).Some?
  {
    ParentPerforms(plan, s);
    ScriptPerforms(plan, s.done + 1);
  }

  lemma TracedGrows(plan: Plan, s: State, t: State, event: Event)
    requires s.done < |Script(plan)| && Traced(plan, s) && event == Script(plan)[s.done] && OfParent(event)
    requires t.done == s.done + 1 && t.trace == s.trace + [event]
    requires s.child.Executed? ==> t.child.Executed?
    requires Parents(t.trace) == Script(plan)[..t.done] && Perform(plan.w, Script(plan)[..t.done]) == Some(t.p)
    ensures Traced(plan, t)
  {
    ParentKeepsOrder(s.trace, event);
  }

  lemma ParentEventAt(plan: Plan, n: nat)
    requires n < |Script(plan)|
    ensures OfParent(Script(plan)[n])
  {
    ScriptAt(plan, n);
  }

  lemma ParentMoves(plan: Plan, s: State)
    requires Counted(plan, s) && Enabled(plan, s, ParentGoes)
    requires Do(plan.w, s.p, Script(plan)[s.done]).Some?
    ensures var t := Step(plan, s, ParentGoes);
            && t.done == s.done + 1 && t.trace == s.trace + [Script(plan)[s.done]]
            && t.p == Do(plan.w, s.p, Script(plan)[s.done]).value
            && (s.child.Executed? ==> t.child.Executed?)
            && (t.child.Unborn? || (t.child == s.child && t.inside == s.inside)
                || (Script(plan)[s.done].Fork? && t.inside == ChildNamespaces(t.p)))
  {
    ScriptAt(plan, s.done);
  }

  lemma ParentKeepsTraced(plan: Plan, s: State)
    requires Inv(plan, s) && Enabled(plan, s, ParentGoes)
    requires Do(plan.w, s.p, Script(plan)[s.done]).Some?
    ensures Step(plan, s, ParentGoes).done <= |Script(plan)| && Traced(plan, Step(plan, s, ParentGoes))
  {
    ParentPerforms(plan, s);
    ParentMoves(plan, s);
    ParentEventAt(plan, s.done);
    TracedGrows(plan, s, Step(plan, s, ParentGoes), Script(plan)[s.done]);
  }

  lemma ParentKeepsInside(plan: Plan, s: State)
    requires Sane(plan) && Inv(plan, s) && Enabled(plan, s, ParentGoes)
    requires Do(plan.w, s.p, Script(plan)[s.done]).Some?
    ensures var t := Step(plan, s, ParentGoes);
            !t.child.Unborn? ==> InTheContainer(plan, t.inside)
  {
    ParentPerforms(plan, s);
    ParentMoves(plan, s);
    if Script(plan)[s.done].Fork? {
      ScriptAt(plan, s.done);
      ChildIsInTheContainer(plan, s.done + 1);
    }
  }

  lemma ParentKeepsInv(plan: Plan, s: State)
    requires Sane(plan) && Inv(plan, s) && Enabled(plan, s, ParentGoes)
    ensures Inv(plan, Step(plan, s, ParentGoes))
  {
    if Do(plan.w, s.p, Script(plan)[s.done]).Some? {
      ParentKeepsTraced(plan, s);
      ParentCounts(plan, s);
      ParentKeepsInside(plan, s);
    } else {
      ClosingKeepsInv(plan, s);
    }
  }

  lemma ClosingKeepsInv(plan: Plan, s: State)
    requires Inv(plan, s)
    ensures Inv(plan, s.(parentOpen := false))
  {
  }

  lemma ChildKeepsInv(plan: Plan, s: State)
    requires Inv(plan, s) && Enabled(plan, s, ChildGoes)
    ensures Inv(plan, Step(plan, s, ChildGoes))
  {
    if s.child.Entering? || s.child.Executing? {
      DidAt(plan, s, |Before(plan)| + 2);
      ScriptAt(plan, |Before(plan)| + 2);
      var event := if s.child.Entering? then Enter else Execute;
      ParentsGrow(s.trace, event);
      FirstComesGrows(s.trace, event, Place, Enter);
      FirstComesGrows(s.trace, event, Place, Execute);
    }
  }

  lemma StartKeepsInv(plan: Plan)
    ensures Inv(plan, Start(plan))
  {
    ScriptLength(plan);
    assert Script(plan)[..0] == [];
  }

  lemma {:induction false} RunKeepsInv(plan: Plan, choices: seq<Choice>)
    requires Sane(plan)
    ensures Inv(plan, Reached(plan, choices))
    decreases |choices|
  {
    if choices == [] {
      StartKeepsInv(plan);
    } else {
      RunKeepsInv(plan, choices[..|choices| - 1]);
      var s := Reached(plan, choices[..|choices| - 1]);
      var c := choices[|choices| - 1];
      if Enabled(plan, s, c) {
        match c
        case ParentGoes => ParentKeepsInv(plan, s);
        case ChildGoes => ChildKeepsInv(plan, s);
        case ParentEnds =>
        case ChildEnds =>
      }
    }
  }

  // ----- what every run keeps

  /** The program is executed only after its process was written into the container's cgroup; so it
      never is when the parent ends before telling the child. */
  lemma PlacedBeforeExecution(plan: Plan, choices: seq<Choice>)
    requires Sane(plan)
    ensures var s := Reached(plan, choices);
            && FirstComes(s.trace, Place, Execute) && FirstComes(s.trace, Place, Enter)
            && (!s.parentOpen && SendApplied !in s.trace ==> Execute !in s.trace)
  {
    RunKeepsInv(plan, choices);
    SendIsKnown(plan, Reached(plan, choices));
  }

  lemma SendIsKnown(plan: Plan, s: State)
    requires Inv(plan, s)
    ensures SendApplied in s.trace <==> s.done > |Before(plan)| + 3
    ensures Place in s.trace <==> s.done > |Before(plan)| + 2
    ensures Fork in s.trace <==> s.done > |Before(plan)| + 1
  {
    DidAt(plan, s, |Before(plan)| + 3);
    DidAt(plan, s, |Before(plan)| + 2);
    DidAt(plan, s, |Before(plan)| + 1);
    ScriptAt(plan, |Before(plan)| + 3);
    ScriptAt(plan, |Before(plan)| + 2);
    ScriptAt(plan, |Before(plan)| + 1);
  }

  lemma PidWriteIsKnown(plan: Plan, s: State)
    requires Inv(plan, s)
    ensures WritePidFile in s.trace <==> s.done > |Before(plan)| + 4
    ensures WritePidFile in s.trace ==> plan.pidFile
  {
    ScriptLength(plan);
    if plan.pidFile {
      DidAt(plan, s, |Before(plan)| + 4);
      ScriptAt(plan, |Before(plan)| + 4);
    } else if WritePidFile in s.trace {
      ParentsAreInTheTrace(s.trace, WritePidFile);
      var m :| 0 <= m < s.done && Script(plan)[m] == WritePidFile;
      ScriptAt(plan, m);
    }
  }

  /** What the two writes reach and where the child lives: the pid is written to the cgroup.procs and the
      pid file of the host, although the runtime has joined the container's mount namespace by then, and
      the child is in the container's namespace of every kind but time. A parent that has done all it had
      to has placed and told the child, and written the pid file if one was asked for. */
  lemma ExecReachesTheHost(plan: Plan, choices: seq<Choice>)
    requires Sane(plan)
    ensures var s, host := Reached(plan, choices), In(plan.w.own, Mount);
            && s.p.placedIn == (if Place in s.trace then Some(Named(host, CgroupProcs)) else None)
            && s.p.pidWrittenTo == (if WritePidFile in s.trace then Some(Named(host, PidFile)) else None)
            && (!s.child.Unborn? ==> InTheContainer(plan, s.inside))
            && (s.done == |Script(plan)| ==>
                  Place in s.trace && SendApplied in s.trace && (WritePidFile in s.trace <==> plan.pidFile))
  {
    RunKeepsInv(plan, choices);
    var s := Reached(plan, choices);
    SendIsKnown(plan, s);
    PidWriteIsKnown(plan, s);
    PerformedFollows(plan, s.done);
    ScriptLength(plan);
  }

  /** The parent of an able runtime gets through its script: while it has not ended and not come to the
      end, its next step takes it one call further. */
  lemma AbleParentGoesOn(plan: Plan, choices: seq<Choice>)
    requires Sane(plan) && Able(plan) && Enabled(plan, Reached(plan, choices), ParentGoes)
    ensures var s := Reached(plan, choices);
            Step(plan, s, ParentGoes).done == s.done + 1
  {
    RunKeepsInv(plan, choices);
    ParentIsNotRefused(plan, Reached(plan, choices));
    ParentMoves(plan, Reached(plan, choices));
  }

  /** What the parent did is a prefix of its script. */
  lemma ParentKeepsToItsScript(plan: Plan, choices: seq<Choice>)
    requires Sane(plan)
    ensures Parents(Reached(plan, choices).trace) <= Script(plan)
  {
    RunKeepsInv(plan, choices);
  }

  /** So every host path is opened before any namespace is joined, and every join comes in its order and
      before the fork. */
  lemma HostPathsComeFirst(plan: Plan, choices: seq<Choice>, did: seq<Event>, i: nat, j: nat)
    requires Sane(plan) && did == Parents(Reached(plan, choices).trace)
    requires i < |did| && j < |did|
    ensures did[i].Open? && did[j].JoinNs? ==> i < j
    ensures did[i].JoinNs? ==> |Opens(plan)| <= i < |Before(plan)|
                               && did[i] == JoinNs(JoinsOf(plan)[i - |Opens(plan)|])
    ensures did[j].Fork? ==> Before(plan) <= did && j > |Before(plan)|
  {
    ParentKeepsToItsScript(plan, choices);
    PrefixAt(plan, did, i);
    PrefixAt(plan, did, j);
  }

  lemma PrefixAt(plan: Plan, did: seq<Event>, n: nat)
    requires did <= Script(plan) && n < |did|
    ensures did[n].Open? <==> n < |Opens(plan)|
    ensures did[n].JoinNs? <==> |Opens(plan)| <= n < |Before(plan)|
    ensures did[n].JoinNs? ==> did[n] == JoinNs(JoinsOf(plan)[n - |Opens(plan)|])
    ensures did[n].Fork? ==> Before(plan) <= did && n > |Before(plan)|
  {
    ScriptAt(plan, n);
    if did[n].Fork? {
      assert Before(plan) <= Script(plan);
    }
  }

  // ----- every run ends

  function Left(plan: Plan, s: State): nat
    requires s.done <= |Script(plan)|
  {
    |Script(plan)| - s.done + (if s.parentOpen then 1 else 0)
    + match s.child
      case Unborn => 4
      case Waiting => 3
      case Entering => 2
      case Executing => 1
      case _ => 0
  }

  /** Every step takes something off a bound, so no run takes more than |Script| + 5 steps. */
  lemma StepShrinks(plan: Plan, choices: seq<Choice>, c: Choice)
    requires Sane(plan) && Enabled(plan, Reached(plan, choices), c)
    ensures var s := Reached(plan, choices);
            var t := Step(plan, s, c);
            s.done <= |Script(plan)| && t.done <= |Script(plan)| && Left(plan, t) < Left(plan, s)
  {
    RunKeepsInv(plan, choices);
    ChoiceShrinks(plan, Reached(plan, choices), c);
  }

  lemma ChoiceShrinks(plan: Plan, s: State, c: Choice)
    requires Counted(plan, s) && Enabled(plan, s, c)
    ensures var t := Step(plan, s, c);
            t.done <= |Script(plan)| && Left(plan, t) < Left(plan, s)
  {
    if c.ParentGoes? {
      ScriptAt(plan, s.done);
    }
  }

  /** Where neither process can go on, by itself and whether or not the parent has returned, the child has
      executed the program after being told, or has exited, or was never forked; unless the cgroup it was
      placed in is frozen. A child that was never told has then exited. */
  lemma NobodyIsLeftWaiting(plan: Plan, choices: seq<Choice>)
    requires Sane(plan)
    requires !Enabled(plan, Reached(plan, choices), ParentGoes) && !Enabled(plan, Reached(plan, choices), ChildGoes)
    ensures var s := Reached(plan, choices);
            && (ChildLives(s) ==> plan.frozen && Place in s.trace)
            && (s.child.Executed? ==> SendApplied in s.trace)
            && (Fork in s.trace && SendApplied !in s.trace && !ChildLives(s) ==> s.child.Exited?)
  {
    var s := Reached(plan, choices);
    RunKeepsInv(plan, choices);
    SendIsKnown(plan, s);
    ScriptLength(plan);
    ExecReachesTheHost(plan, choices);
  }
}
