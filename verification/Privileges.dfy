/** The last steps of the container init before it announces itself: seccomp, the five capability
    sets, the user id and no_new_privs (src/container/init.rs, src/container/capabilities.rs,
    src/container/process.rs). The kernel rules are those of capabilities(7), sections "Effect of
    user ID changes on capabilities" and "Programmatically adjusting capability sets". */
module Privileges {
  import opened Wrappers

  datatype Cap = SetGid | SetUid | SetPcap | SysAdmin | Other(number: nat)

  /** process.user of a bundle. */
  datatype User = User(uid: nat, gid: nat, groups: seq<nat>)

  /** Credentials of one process. */
  datatype Creds = Creds(
    uid: nat, gid: nat, groups: seq<nat>,
    permitted: set<Cap>, effective: set<Cap>, inheritable: set<Cap>, ambient: set<Cap>,
    bounding: set<Cap>,
    keepCaps: bool, noNewPrivs: bool)

  /** The kernel's own invariant over the sets. */
  predicate Sound(c: Creds) {
    c.effective <= c.permitted && c.ambient <= c.permitted * c.inheritable
  }

  // ----- kernel rules

  function KernelDropBounding(c: Creds, cap: Cap): Option<Creds> {
    if SetPcap in c.effective then Some(c.(bounding := c.bounding - {cap})) else None
  }

  /** capset(2): permitted only shrinks, effective stays inside it, inheritable grows only within
      permitted (unless CAP_SETPCAP) and the bounding set, and ambient follows. */
  function KernelCapSet(c: Creds, effective: set<Cap>, permitted: set<Cap>, inheritable: set<Cap>)
    : Option<Creds>
  {
    if && permitted <= c.permitted
       && effective <= permitted
       && (SetPcap in c.effective || inheritable <= c.inheritable + c.permitted)
       && inheritable <= c.inheritable + c.bounding
    then Some(c.(effective := effective, permitted := permitted, inheritable := inheritable,
                 ambient := c.ambient * permitted * inheritable))
    else None
  }

  function KernelRaiseAmbient(c: Creds, cap: Cap): Option<Creds> {
    if cap in c.permitted && cap in c.inheritable then Some(c.(ambient := c.ambient + {cap})) else None
  }

  /** setgroups(2) and setgid(2). */
  function KernelSetGroups(c: Creds, groups: seq<nat>): Option<Creds> {
    if SetGid in c.effective then Some(c.(groups := groups)) else None
  }

  function KernelSetGid(c: Creds, gid: nat): Option<Creds> {
    if SetGid in c.effective || gid == c.gid then Some(c.(gid := gid)) else None
  }

  /** setuid(2) with its effect on the sets when the user id leaves or reaches 0. */
  function KernelSetUid(c: Creds, uid: nat): Option<Creds> {
    if SetUid !in c.effective && uid != c.uid then None
    else if c.uid == 0 && uid != 0 then
      Some(c.(uid := uid, effective := {}, ambient := {},
              permitted := if c.keepCaps then c.permitted else {}))
    else if c.uid != 0 && uid == 0 then Some(c.(uid := uid, effective := c.permitted))
    else Some(c.(uid := uid))
  }

  predicate MayLoadFilter(c: Creds) {
    SysAdmin in c.effective || c.noNewPrivs
  }

  // ----- what the bundle asks for

  datatype CapSpec = CapSpec(
    bounding: set<Cap>, effective: set<Cap>, permitted: set<Cap>, inheritable: set<Cap>,
    ambient: set<Cap>)

  datatype ProcessSpec = ProcessSpec(user: User, caps: Option<CapSpec>, noNewPrivs: bool)

  datatype Spec = Spec(process: Option<ProcessSpec>, seccomp: bool)

  predicate WantsNoNewPrivs(s: Spec) {
    s.process.Some? && s.process.value.noNewPrivs
  }

  // ----- when each step succeeds, and what it leaves

  predicate CanDropBounding(c: Creds, wanted: set<Cap>) {
    c.bounding <= wanted || SetPcap in c.effective
  }

  predicate CanDropPrivileges(c: Creds, user: User) {
    SetGid in c.effective && (SetUid in c.effective || user.uid == c.uid)
  }

  function Dropped(c: Creds, user: User): Creds {
    var d := c.(uid := user.uid, gid := user.gid, groups := user.groups);
    if c.uid == 0 && user.uid != 0 then d.(effective := {}, ambient := {}, keepCaps := false)
    else if c.uid != 0 && user.uid == 0 then d.(effective := c.permitted)
    else d
  }

  /** The subset conditions of the kernel for the four sets, from these credentials. */
  predicate CanApply(c: Creds, s: CapSpec) {
    && s.effective <= s.permitted <= c.permitted
    && (SetPcap in s.effective || s.inheritable <= c.inheritable + s.permitted)
    && s.inheritable <= c.inheritable + c.bounding
    && s.ambient <= s.permitted * s.inheritable
  }

  function Applied(c: Creds, s: CapSpec): Creds {
    c.(effective := s.effective, permitted := s.permitted, inheritable := s.inheritable,
       ambient := s.ambient)
  }

  predicate CanSecure(c: Creds, s: Spec) {
    && (s.seccomp && !WantsNoNewPrivs(s) ==> MayLoadFilter(c))
    && (s.process.Some? ==>
          var p := s.process.value;
          && (p.caps.Some? ==> CanDropBounding(c, p.caps.value.bounding))
          && CanDropPrivileges(c, p.user)
          && (p.caps.Some? ==>
                CanApply(Dropped(c.(bounding := c.bounding * p.caps.value.bounding), p.user), p.caps.value)))
  }

  function Secured(c: Creds, s: Spec): Creds {
    if s.process.None? then c
    else
      var p := s.process.value;
      var sets :=
        if p.caps.None? then Dropped(c, p.user)
        else Applied(Dropped(c.(bounding := c.bounding * p.caps.value.bounding), p.user), p.caps.value);
      sets.(noNewPrivs := c.noNewPrivs || p.noNewPrivs)
  }

  /** The credentials the filter is loaded under: first of all, unless no_new_privs is wanted. */
  function LoadedUnder(c: Creds, s: Spec): Creds {
    if WantsNoNewPrivs(s) then Secured(c, s) else c
  }

  // ----- the process

  class Task {
    var creds: Creds
    ghost var history: seq<Creds>   // after every system call
    ghost var loads: seq<Creds>     // at every filter load

    ghost predicate Valid()
      reads this
    {
      && Sound(creds)
      && (forall c :: c in history ==> Sound(c))
      && (forall c :: c in loads ==> MayLoadFilter(c))
    }

    constructor (c: Creds)
      requires Sound(c)
      ensures Valid() && creds == c && history == [] && loads == []
    {
      creds := c;
      history := [];
      loads := [];
    }

    /** One system call: it fails and changes nothing, or installs new credentials. */
    method Become(next: Option<Creds>) returns (ok: bool)
      requires Valid() && (next.Some? ==> Sound(next.value))
      modifies this
      ensures Valid() && loads == old(loads)
      ensures ok <==> next.Some?
      ensures creds == if ok then next.value else old(creds)
      ensures history == if ok then old(history) + [creds] else old(history)
    {
      ok := next.Some?;
      if ok {
        creds := next.value;
        history := history + [creds];
      }
    }

    method LoadFilter() returns (ok: bool)
      requires Valid()
      modifies this`loads
      ensures Valid()
      ensures ok <==> MayLoadFilter(creds)
      ensures loads == if ok then old(loads) + [creds] else old(loads)
    {
      ok := MayLoadFilter(creds);
      if ok {
        loads := loads + [creds];
      }
    }

    /** `drop_bounding`: what the spec does not list is dropped, one capability at a time. */
    method DropBounding(wanted: set<Cap>) returns (ok: bool)
      requires Valid()
      modifies this
      ensures Valid() && loads == old(loads)
      ensures ok <==> CanDropBounding(old(creds), wanted)
      ensures ok ==> creds == old(creds).(bounding := old(creds).bounding * wanted)
    {
      var left := creds.bounding - wanted;
      while left != {}
        invariant Valid() && loads == old(loads)
        invariant left <= old(creds).bounding - wanted
        invariant creds == old(creds).(bounding := old(creds).bounding * wanted + left)
        invariant left == old(creds).bounding - wanted || SetPcap in old(creds).effective
        decreases left
      {
        var cap :| cap in left;
        ok := Become(KernelDropBounding(creds, cap));
        if !ok {
          assert cap in old(creds).bounding && cap !in wanted;
          return;
        }
        left := left - {cap};
      }
      assert old(creds).bounding - wanted == {} ==> old(creds).bounding <= wanted by {
        assert forall c :: c in old(creds).bounding && c !in wanted ==> c in old(creds).bounding - wanted;
      }
      ok := true;
    }

    /** `drop_privileges`: groups while still privileged, then the user id, keeping the permitted
        set across a transition away from root. */
    method DropPrivileges(user: User) returns (ok: bool)
      requires Valid()
      modifies this
      ensures Valid() && loads == old(loads)
      ensures ok <==> CanDropPrivileges(old(creds), user)
      ensures ok ==> creds == Dropped(old(creds), user)
    {
      var leavingRoot := creds.uid == 0 && user.uid != 0;
      ok := Become(KernelSetGroups(creds, user.groups));
      if !ok {
        return;
      }
      if leavingRoot {
        ok := Become(Some(creds.(keepCaps := true)));
      }
      ok := Become(KernelSetGid(creds, user.gid));
      if !ok {
        return;
      }
      ok := Become(KernelSetUid(creds, user.uid));
      if !ok {
        return;
      }
      if leavingRoot {
        ok := Become(Some(creds.(keepCaps := false)));
      }
    }

    /** `apply`: effective, permitted and inheritable are written one by one, then ambient is
        cleared and raised. It succeeds exactly under the kernel's subset conditions. */
    method Apply(s: CapSpec) returns (ok: bool)
      requires Valid()
      modifies this
      ensures Valid() && loads == old(loads)
      ensures ok <==> CanApply(old(creds), s)
      ensures ok ==> creds == Applied(old(creds), s)
    {
      if !(s.effective <= s.permitted) {
        return false;
      }
      ok := Become(KernelCapSet(creds, s.effective, creds.permitted, creds.inheritable));
      if !ok {
        return;
      }
      ok := Become(KernelCapSet(creds, creds.effective, s.permitted, creds.inheritable));
      if !ok {
        return;
      }
      ok := Become(KernelCapSet(creds, creds.effective, creds.permitted, s.inheritable));
      if !ok {
        return;
      }
      ok := Become(Some(creds.(ambient := {})));
      var left := s.ambient;
      while left != {}
        invariant Valid() && loads == old(loads)
        invariant left <= s.ambient
        invariant s.ambient - left <= s.permitted * s.inheritable
        invariant creds == Applied(old(creds), s).(ambient := s.ambient - left)
        decreases left
      {
        var cap :| cap in left;
        if cap !in s.permitted || cap !in s.inheritable {
          return false;
        }
        ok := Become(KernelRaiseAmbient(creds, cap));
        left := left - {cap};
      }
      ok := true;
    }

    /** The security steps of `container_init`, in its order. */
    method Secure(s: Spec) returns (ok: bool)
      requires Valid()
      modifies this
      ensures Valid()
      ensures ok <==> CanSecure(old(creds), s)
      ensures ok ==> creds == Secured(old(creds), s)
      ensures ok ==> loads == old(loads) + if s.seccomp then [LoadedUnder(old(creds), s)] else []
      ensures old(loads) <= loads
    {
      var noNewPrivs := s.process.Some? && s.process.value.noNewPrivs;
      if !noNewPrivs && s.seccomp {
        ok := LoadFilter();
        if !ok {
          return;
        }
      }
      if s.process.Some? {
        var p := s.process.value;
        if p.caps.Some? {
          ok := DropBounding(p.caps.value.bounding);
          if !ok {
            return;
          }
        }
        ok := DropPrivileges(p.user);
        if !ok {
          return;
        }
        if p.caps.Some? {
          ok := Apply(p.caps.value);
          if !ok {
            return;
          }
        }
        if noNewPrivs {
          ok := Become(Some(creds.(noNewPrivs := true)));
        }
      }
      if noNewPrivs && s.seccomp {
        ok := LoadFilter();
        if !ok {
          return;
        }
      }
      ok := true;
    }
  }

  // ----- started as root

  /** Full root credentials that hold at least the capabilities the sequence uses. */
  predicate Privileged(c: Creds) {
    && c.uid == 0 && !c.noNewPrivs
    && c.effective == c.permitted
    && {SetGid, SetUid, SetPcap, SysAdmin} <= c.permitted
  }

  /** The kernel's subset preconditions, on the spec and the credentials the init started with. */
  predicate SubsetsHold(c: Creds, s: CapSpec) {
    && s.effective <= s.permitted <= c.permitted
    && (SetPcap in s.effective || s.inheritable <= c.inheritable + s.permitted)
    && s.inheritable <= c.inheritable + c.bounding * s.bounding
    && s.ambient <= s.permitted * s.inheritable
  }

  /** What the sequence leaves, field by field, for every bundle with a process: the bundle's user, groups
      and no_new_privs; its sets where it has any; and where it has none, what leaving root, becoming root
      or neither does to the sets there were. */
  lemma SecuredFields(c: Creds, s: Spec)
    requires s.process.Some?
    ensures var p, end := s.process.value, Secured(c, s);
            var leaving, becoming := c.uid == 0 && p.user.uid != 0, c.uid != 0 && p.user.uid == 0;
            && end.uid == p.user.uid && end.gid == p.user.gid && end.groups == p.user.groups
            && end.noNewPrivs == (c.noNewPrivs || p.noNewPrivs)
            && end.keepCaps == (c.keepCaps && !leaving)
            && (p.caps.Some? ==>
                  && end.bounding == c.bounding * p.caps.value.bounding
                  && end.effective == p.caps.value.effective && end.permitted == p.caps.value.permitted
                  && end.inheritable == p.caps.value.inheritable && end.ambient == p.caps.value.ambient)
            && (p.caps.None? ==>
                  && end.bounding == c.bounding && end.inheritable == c.inheritable && end.permitted == c.permitted
                  && end.effective == (if leaving then {} else if becoming then c.permitted else c.effective)
                  && end.ambient == (if leaving then {} else c.ambient))
  {
  }

  /** When it succeeds without a capabilities object: with CAP_SETGID, with CAP_SETUID or no change of the
      user id, and with what the filter needs. Without a process it changes nothing. */
  lemma SecuredWithoutSets(c: Creds, s: Spec)
    requires s.process.None? || s.process.value.caps.None?
    ensures CanSecure(c, s)
            <==> (s.process.Some? ==>
                    SetGid in c.effective && (SetUid in c.effective || s.process.value.user.uid == c.uid))
                 && (s.seccomp ==> WantsNoNewPrivs(s) || SysAdmin in c.effective || c.noNewPrivs)
    ensures s.process.None? ==> Secured(c, s) == c
  {
  }

  /** Started as root, every step succeeds exactly when the spec meets the subset preconditions,
      whichever user it switches to, and then the five sets are the spec's own. */
  lemma RootIsSecuredExactly(c: Creds, s: Spec)
    requires Privileged(c) && Sound(c) && s.process.Some? && s.process.value.caps.Some?
    ensures CanSecure(c, s) <==> SubsetsHold(c, s.process.value.caps.value)
    ensures var sets, end := s.process.value.caps.value, Secured(c, s);
            && end.effective == sets.effective && end.permitted == sets.permitted
            && end.inheritable == sets.inheritable && end.ambient == sets.ambient
            && (end.bounding == sets.bounding <==> sets.bounding <= c.bounding)
            && end.uid == s.process.value.user.uid
            && end.noNewPrivs == s.process.value.noNewPrivs
  {
    var sets := s.process.value.caps.value;
    assert sets.bounding <= c.bounding ==> c.bounding * sets.bounding == sets.bounding;
    assert c.bounding * sets.bounding == sets.bounding ==> sets.bounding <= c.bounding;
  }

  // ----- why the order matters

  /** `apply` with the permitted set written before the effective one. */
  function ApplySwapped(c: Creds, s: CapSpec): Option<Creds> {
    if !(s.effective <= s.permitted) then None else
    match KernelCapSet(c, c.effective, s.permitted, c.inheritable)
    case None => None
    case Some(first) =>
      match KernelCapSet(first, s.effective, first.permitted, first.inheritable)
      case None => None
      case Some(second) =>
        match KernelCapSet(second, second.effective, second.permitted, s.inheritable)
        case None => None
        case Some(third) =>
          if s.ambient <= s.permitted * s.inheritable then Some(third.(ambient := s.ambient)) else None
  }

  /** Swapping the two writes loses exactly the cases in which something is effective that the new
      permitted set does not contain. */
  lemma SwappedWritesFail(c: Creds, s: CapSpec)
    requires Sound(c)
    ensures ApplySwapped(c, s).Some? <==> CanApply(c, s) && c.effective <= s.permitted
  {
  }

  /** So it only ever matters to a container that stays root: leaving root has emptied the
      effective set before. */
  lemma SwapIsHarmlessAfterLeavingRoot(c: Creds, s: CapSpec, user: User)
    requires Sound(c) && c.uid == 0 && user.uid != 0
    ensures ApplySwapped(Dropped(c, user), s).Some? <==> CanApply(Dropped(c, user), s)
  {
    SwappedWritesFail(Dropped(c, user), s);
  }

  /** The user id change without PR_SET_KEEPCAPS. */
  function DroppedWithoutKeep(c: Creds, user: User): Creds {
    if c.uid == 0 && user.uid != 0 then Dropped(c, user).(permitted := {})
    else Dropped(c, user)
  }

  /** Without it, leaving root works only for a container that asks for no permitted capability. */
  lemma KeepCapsIsNeeded(c: Creds, s: CapSpec, user: User)
    requires c.uid == 0 && user.uid != 0
    ensures CanApply(DroppedWithoutKeep(c, user), s)
            <==> CanApply(Dropped(c, user), s) && s.permitted == {}
  {
  }

  /** The bounding set must be dropped before the user id: afterwards, and before the effective set
      is written, nothing at all can be dropped. */
  lemma BoundingMustComeFirst(c: Creds, wanted: set<Cap>, user: User)
    requires c.uid == 0 && user.uid != 0
    ensures CanDropBounding(Dropped(c, user), wanted) <==> c.bounding <= wanted
  {
  }

  /** The one load is possible for every spec with no_new_privs, and otherwise exactly if the init was
      started with CAP_SYS_ADMIN or no_new_privs itself: what the spec does to the sets never matters. */
  lemma FilterPointIsRight(c: Creds, s: Spec)
    ensures MayLoadFilter(LoadedUnder(c, s)) <==> WantsNoNewPrivs(s) || SysAdmin in c.effective || c.noNewPrivs
  {
  }

  /** Loading the filter last, as for no_new_privs, fails without it unless the container keeps
      CAP_SYS_ADMIN. */
  lemma LateFilterNeedsNoNewPrivs(c: Creds, s: Spec)
    requires Privileged(c) && s.process.Some? && s.process.value.caps.Some?
    ensures MayLoadFilter(Secured(c, s))
            <==> s.process.value.noNewPrivs || SysAdmin in s.process.value.caps.value.effective
  {
  }
}
