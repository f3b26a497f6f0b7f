/** Signalling a whole cgroup: `kill --all`, which freezes it first, against the single snapshot that
    `teardown` takes (src/container/mod.rs, `kill` and `teardown`; src/cgroup/v2.rs, `freeze`).

    The container's own processes run beside every step. While the cgroup is not frozen they fork, and
    they may exit at any time; a process that has SIGKILL cannot fork any more. Nobody else freezes,
    thaws or moves a process into the cgroup meanwhile, and a process keeps one name for ever. */
module KillAll {
  import opened Wrappers

  type Pid = nat

  /** The kernel's side: who is in the cgroup, everyone who ever was, who has been sent the signal,
      what cgroup.freeze asks for and what cgroup.events reports. */
  datatype Kernel = Kernel(members: set<Pid>, seen: set<Pid>, got: set<Pid>, asked: bool, frozen: bool)
  {
    ghost predicate Valid() {
      members <= seen && got <= seen
    }

    /** Nobody can fork: the cgroup is frozen to stay, or everyone in it has a deadly signal. */
    ghost predicate Still(deadly: bool) {
      (frozen && asked) || (deadly && members <= got)
    }
  }

  /** What the processes of the container may do between two steps of the runtime. */
  ghost predicate Meanwhile(k: Kernel, next: Kernel, deadly: bool) {
    && next.got == k.got && next.asked == k.asked
    && k.seen <= next.seen
    && next.members <= k.members + (next.seen - k.seen)
    && (k.Still(deadly) ==> next.seen == k.seen)
    && (next.frozen == k.frozen || next.frozen == k.asked)
  }

  /** Two stretches of it are one, so a single stretch stands for any number of events. */
  lemma MeanwhileComposes(a: Kernel, b: Kernel, c: Kernel, deadly: bool)
    requires Meanwhile(a, b, deadly) && Meanwhile(b, c, deadly)
    ensures Meanwhile(a, c, deadly)
  {
    if a.Still(deadly) {
      assert b.members <= a.members;
    }
  }

  /** What `is_frozen` says: a cgroup.events that cannot be read counts as not frozen. */
  predicate Reported(k: Kernel, failed: bool) {
    k.frozen && !failed
  }

  datatype Fault = FreezeRefused | FreezeTimedOut | Unread | Gone(pid: Pid) | ThawRefused | ThawTimedOut

  /** The members in the order cgroup.procs lists them. */
  method Listing(members: set<Pid>) returns (pids: seq<Pid>)
    ensures forall p :: p in members <==> p in pids
  {
    pids := [];
    var rest := members;
    while rest != {}
      invariant rest <= members
      invariant forall p :: p in members <==> p in pids || p in rest
    {
      var p :| p in rest;
      pids, rest := pids + [p], rest - {p};
    }
  }

  class Group {
    var now: Kernel
    const deadly: bool     // the signal is SIGKILL
    ghost var failed: bool // the last read of cgroup.events failed

    constructor (now: Kernel, deadly: bool)
      requires now.Valid()
      ensures this.now == now && this.deadly == deadly && !failed
    {
      this.now, this.deadly, this.failed := now, deadly, false;
    }

    /** The container's processes run. */
    method Interfere()
      requires now.Valid()
      modifies this`now
      ensures now.Valid() && Meanwhile(old(now), now, deadly)
    {
      var born: set<Pid>, gone: set<Pid>, settled: bool := *, *, *;
      if (now.frozen && now.asked) || (deadly && now.members <= now.got) {
        born := {};
      }
      born := born - now.seen;
      now := now.(members := now.members + born - gone,
                  seen := now.seen + born,
                  frozen := if settled then now.asked else now.frozen);
    }

    /** `is_frozen`: a cgroup.events that cannot be read counts as not frozen. */
    method IsFrozen() returns (seen: bool)
      requires now.Valid()
      modifies this
      ensures now.Valid() && Meanwhile(old(now), now, deadly)
      ensures seen == Reported(now, failed)
    {
      Interfere();
      var broken: bool := *;
      failed := broken;
      seen := if broken then false else now.frozen;
    }

    /** `freeze`: one write, then waiting for cgroup.events to agree. The write may be refused and the
        wait may end too early. A success of freezing is one whatever reads fail; a success of thawing is
        one unless the read that ended the wait failed, and then it may or may not be
        (`FailedReadTellsNothing`). */
    method Freeze(want: bool) returns (fault: Option<bool>)
      requires now.Valid()
      modifies this
      ensures now.Valid()
      ensures exists k :: Meanwhile(old(now), k, deadly)
                && Meanwhile(k.(asked := if fault == Some(false) then k.asked else want), now, deadly)
      ensures fault.None? && want ==> now.frozen
      ensures fault.None? && want ==> !failed
      ensures fault.None? && !want && !failed ==> !now.frozen
    {
      Interfere();
      ghost var k := now;
      var refused: bool := *;
      if refused {
        MeanwhileNothing(now, deadly);
        assert k.(asked := k.asked) == k;
        return Some(false);
      }
      now := now.(asked := want);
      MeanwhileNothing(now, deadly);
      for poll := 0 to 500
        invariant now.Valid() && Meanwhile(k.(asked := want), now, deadly)
      {
        ghost var before := now;
        var seen := IsFrozen();
        MeanwhileComposes(k.(asked := want), before, now, deadly);
        if seen == want {
          return None;
        }
      }
      fault := Some(true);
    }

    /** One kill(2): the process must still be there. */
    method Signal(pid: Pid) returns (sent: bool)
      requires now.Valid()
      modifies this`now
      ensures now.Valid()
      ensures exists k :: Meanwhile(old(now), k, deadly)
                && sent == (pid in k.members)
                && now == if sent then k.(got := k.got + {pid}) else k
    {
      Interfere();
      ghost var k := now;
      sent := pid in now.members;
      if sent {
        now := now.(got := now.got + {pid});
      }
      assert now == if sent then k.(got := k.got + {pid}) else k;
    }

    /** `cgroup.procs()` and a signal to each, stopping at the first that is gone. When it ends well
        every process that was there at the reading has the signal; and if nobody could fork then
        nobody else has turned up since. */
    method SignalAll() returns (r: Result<(), Fault>, ghost read: Kernel)
      requires now.Valid()
      modifies this`now
      ensures now.Valid() && read.Valid()
      ensures r.Ok? ==> read.members <= now.got
      ensures read.seen <= now.seen && now.members <= read.members + (now.seen - read.seen)
      ensures now.asked == old(now).asked
      ensures old(now).frozen && old(now).asked ==> read.frozen && now.frozen && now.seen == read.seen == old(now).seen
      ensures r.Err? ==> r.error.Unread? || r.error.Gone?
    {
      Interfere();
      read := now;
      var unread: bool := *;
      if unread {
        return Err(Unread), read;
      }
      var pids := Listing(now.members);
      for i := 0 to |pids|
        invariant now.Valid() && now.asked == old(now).asked
        invariant forall j :: 0 <= j < i ==> pids[j] in now.got
        invariant read.seen <= now.seen && now.members <= read.members + (now.seen - read.seen)
        invariant old(now).frozen && old(now).asked ==> read.frozen && now.frozen && now.seen == read.seen
      {
        var sent := Signal(pids[i]);
        if !sent {
          return Err(Gone(pids[i])), read;
        }
      }
      r := Ok(());
    }

    /** `kill --all`. `first` is the moment `is_frozen` was read, `missed` whether that read failed,
        and `read` the moment the members were listed.

        Ok means every member of that moment has the signal, and anyone without it was forked later;
        unless the cgroup was found frozen while being thawed, it was frozen all along, and after
        SIGKILL there is nobody without the signal. None of this depends on the reads of cgroup.events.

        A cgroup found frozen is left alone. Any other is left asked to thaw, also when a signal failed,
        unless the freeze was refused, which changes nothing, or timed out, or the thaw was refused:
        those two leave it asked to freeze. So a paused cgroup stays paused exactly if the first read
        did not fail, which `missed` says; and any other is thawed in the end unless the last read
        failed. Nobody is signalled before it froze. */
    method KillAll() returns (r: Result<(), Fault>, ghost first: Kernel, ghost missed: bool, ghost read: Kernel)
      requires now.Valid()
      modifies this
      ensures now.Valid() && Meanwhile(old(now), first, deadly)
      ensures var found := Reported(first, missed);
              && (r.Ok? ==> read.members <= now.got && now.members <= now.got + (now.seen - read.seen))
              && (r.Ok? && (found ==> first.asked) ==> read.frozen && (deadly ==> now.members <= now.got))
      ensures var found := Reported(first, missed);
              r.Ok? || r.error.Unread? || r.error.Gone? ==>
                && (found ==> now.asked == first.asked && (first.asked ==> now.frozen))
                && (!found ==> !now.asked && (!failed ==> !now.frozen))
                && (first.frozen && first.asked ==> (now.asked <==> !missed))
      ensures Reported(first, missed) || r == Err(FreezeRefused) ==> now.asked == old(now).asked
      ensures !Reported(first, missed) && r != Err(FreezeRefused) ==>
                now.asked == (r == Err(FreezeTimedOut) || r == Err(ThawRefused))
      ensures r == Err(FreezeRefused) || r == Err(FreezeTimedOut) ==> now.got == old(now).got
      ensures Reported(first, missed) && r.Err? ==> r.error.Unread? || r.error.Gone?
    {
      var frozen := IsFrozen();
      first, missed, read := now, failed, now;
      if !frozen {
        var fault := Freeze(true);
        if fault.Some? {
          return Err(if fault.value then FreezeTimedOut else FreezeRefused), first, missed, read;
        }
      }
      r, read := SignalAll();
      if !frozen {
        var fault := Freeze(false);
        if fault.Some? {
          return Err(if fault.value then ThawTimedOut else ThawRefused), first, missed, read;
        }
      }
    }

    /** The signalling part of `teardown`: SIGKILL for one listing, without freezing. It misses nobody who
        was there at the listing, so everybody has the signal in the end exactly if nobody is there who
        was not in the cgroup by then. */
    method Teardown() returns (ghost read: Kernel)
      requires now.Valid() && deadly
      modifies this`now
      ensures now.Valid()
      ensures now.members <= now.got + (now.seen - read.seen)
      ensures now.members <= now.got <==> now.members <= read.seen
    {
      Interfere();
      read := now;
      var pids := Listing(now.members);
      for i := 0 to |pids|
        invariant now.Valid() && read.seen <= now.seen && now.got <= read.seen
        invariant forall p :: p in now.members && p in read.seen ==> p in now.got || p in pids[i..]
        invariant forall p :: p in pids ==> p in read.seen
      {
        var _ := Signal(pids[i]);
      }
    }
  }

  /** After asking to thaw, a failed read ends the wait; the cgroup may be thawed by then, or not. */
  lemma FailedReadTellsNothing(k: Kernel, deadly: bool)
    requires k.frozen
    ensures var told := k.(asked := false);
            var thawed := told.(frozen := false);
            && Meanwhile(told, told, deadly) && Reported(told, true) == false && told.frozen
            && Meanwhile(told, thawed, deadly) && Reported(thawed, true) == false && !thawed.frozen
  {
  }

  lemma MeanwhileNothing(k: Kernel, deadly: bool)
    ensures Meanwhile(k, k, deadly)
  {
  }

  /** After an Ok of `kill --all` with SIGKILL the cgroup can only empty, for ever. */
  lemma OnlyShrinks(k: Kernel, next: Kernel)
    requires Meanwhile(k, next, true) && k.members <= k.got
    ensures next.members <= k.members && next.members <= next.got
  {
  }

  /** Without freezing a fork slips through: between the listing and the signal the only member forks,
      and its child survives the whole of it. */
  lemma SnapshotMissesAFork(parent: Pid, child: Pid)
    requires parent != child
    ensures var read := Kernel({parent}, {parent}, {}, false, false);
            var forked := Kernel({parent, child}, {parent, child}, {}, false, false);
            var after := forked.(got := {parent});
            var end := after.(members := {child});
            && Meanwhile(read, forked, true) && Meanwhile(after, end, true)
            && end.Valid() && end.members != {} && end.members !! end.got
  {
  }
}
