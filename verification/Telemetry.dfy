/** The phases of a startup trace, taken on three clocks and put on one
    (src/telemetry.rs, and the calls to it in src/container/mod.rs and src/container/init.rs).
    Instants are nanoseconds of one monotone clock; every recorder counts whole microseconds from
    its own origin. */
module Telemetry {
  import opened Wrappers

  datatype Phase = Phase(name: string, start: nat, end: nat)

  /** `elapsed_us`, rounded down. */
  function Micros(origin: nat, now: nat): nat
    requires origin <= now
  {
    (now - origin) / 1_000
  }

  /** So one unit is a microsecond. */
  lemma MicrosCount(origin: nat, micros: nat, rest: nat)
    requires rest < 1_000
    ensures Micros(origin, origin + 1_000 * micros + rest) == micros
  {
  }

  /** The phase that ends when the open one is closed. */
  function Closed(open: Option<(string, nat)>, end: nat): seq<Phase> {
    match open
    case None => []
    case Some((name, start)) => [Phase(name, start, end)]
  }

  function Absorbed(prefix: string, offset: nat, phases: seq<Phase>): (moved: seq<Phase>)
    ensures |moved| == |phases|
    ensures forall i :: 0 <= i < |moved| ==>
              moved[i] == Phase(prefix + "." + phases[i].name, offset + phases[i].start, offset + phases[i].end)
  {
    if phases == [] then []
    else
      Absorbed(prefix, offset, phases[..|phases| - 1])
      + [Phase(prefix + "." + phases[|phases| - 1].name,
               offset + phases[|phases| - 1].start, offset + phases[|phases| - 1].end)]
  }

  /** Phases follow one another without overlap. */
  ghost predicate Sequential(phases: seq<Phase>) {
    && (forall i :: 0 <= i < |phases| ==> phases[i].start <= phases[i].end)
    && (forall i, j :: 0 <= i < j < |phases| ==> phases[i].end <= phases[j].start)
  }

  /** Every phase lies inside the span from `low` to `high`. */
  ghost predicate Inside(phases: seq<Phase>, low: nat, high: nat) {
    forall i :: 0 <= i < |phases| ==> low <= phases[i].start <= phases[i].end <= high
  }

  lemma MicrosMonotone(origin: nat, earlier: nat, later: nat)
    requires origin <= earlier <= later
    ensures Micros(origin, earlier) <= Micros(origin, later)
  {
  }

  /** Rounding two stretches down separately never gets ahead of rounding their sum. */
  lemma OffsetsDoNotOvershoot(parent: nat, offset: nat, child: nat, now: nat)
    requires parent <= offset <= child <= now
    ensures Micros(parent, offset) + Micros(child, now) <= Micros(parent, now)
  {
  }

  /** What a child recorded between its origin and `now` lies, once shifted by an offset the parent
      read before the child existed, between that offset and the parent's own reading of `now`. */
  lemma AbsorbedIsInside(prefix: string, parent: nat, offset: nat, child: nat, now: nat, phases: seq<Phase>)
    requires parent <= offset <= child <= now
    requires Inside(phases, 0, Micros(child, now))
    ensures Inside(Absorbed(prefix, Micros(parent, offset), phases), Micros(parent, offset), Micros(parent, now))
  {
    OffsetsDoNotOvershoot(parent, offset, child, now);
  }

  class Recorder {
    const origin: nat
    var phases: seq<Phase>
    var open: Option<(string, nat)>
    ghost var own: seq<Phase>     // the phases it recorded itself, in order
    ghost var latest: nat         // its latest reading of the clock

    ghost predicate Valid()
      reads this
    {
      && origin <= latest
      && Sequential(own) && Inside(own, 0, Micros(origin, latest))
      && (open.Some? ==> open.value.1 <= Micros(origin, latest)
                         && Inside(own, 0, open.value.1))
      && (forall p :: p in own ==> p in phases)
    }

    constructor (now: nat)
      ensures Valid() && origin == latest == now && phases == own == [] && open == None
    {
      origin, latest := now, now;
      phases, own, open := [], [], None;
    }

    /** Closes the open phase, if there is one. */
    method End(now: nat)
      requires Valid() && latest <= now
      modifies this
      ensures Valid() && latest == now && open == None
      ensures phases == old(phases) + Closed(old(open), Micros(origin, now))
      ensures own == old(own) + Closed(old(open), Micros(origin, now))
    {
      MicrosMonotone(origin, latest, now);
      latest := now;
      if open.Some? {
        var p := Phase(open.value.0, open.value.1, Micros(origin, now));
        phases := phases + [p];
        own := own + [p];
        open := None;
      }
    }

    /** `begin` reads the clock once to close the open phase and once more to open the next. */
    method Begin(name: string, now: nat, andThen: nat)
      requires Valid() && latest <= now <= andThen
      modifies this
      ensures Valid() && latest == andThen && open == Some((name, Micros(origin, andThen)))
      ensures phases == old(phases) + Closed(old(open), Micros(origin, now))
      ensures own == old(own) + Closed(old(open), Micros(origin, now))
    {
      End(now);
      MicrosMonotone(origin, now, andThen);
      latest := andThen;
      open := Some((name, Micros(origin, andThen)));
    }

    /** Phases of another process, shifted onto this clock. */
    method Absorb(prefix: string, offset: nat, others: seq<Phase>)
      requires Valid()
      modifies this`phases
      ensures Valid()
      ensures phases == old(phases) + Absorbed(prefix, offset, others)
    {
      var before := phases;
      for i := 0 to |others|
        invariant phases == before + Absorbed(prefix, offset, others[..i])
      {
        assert others[..i + 1][..i] == others[..i];
        phases := phases + [Phase(prefix + "." + others[i].name, offset + others[i].start, offset + others[i].end)];
      }
      assert others[..|others|] == others;
    }

    /** Ends the open phase and hands everything over. */
    method Take(now: nat) returns (taken: seq<Phase>)
      requires Valid() && latest <= now
      modifies this
      ensures Valid() && latest == now && open == None && phases == own == []
      ensures taken == old(phases) + Closed(old(open), Micros(origin, now))
      ensures old(phases) == old(own) ==> Sequential(taken) && Inside(taken, 0, Micros(origin, now))
    {
      End(now);
      taken := phases;
      phases, own := [], [];
    }
  }

  // ----- the trace of a create

  /** The readings of the parent's clock, in the order of the code; `begin` reads twice. */
  datatype Readings = Readings(
    fork: nat, forkOpen: nat, forkedAt: nat, wait: nat, waitOpen: nat,
    reap: nat, reapOpen: nat, attach: nat, attachOpen: nat, hooks: nat, hooksOpen: nat,
    init: nat, initOpen: nat, initStarted: nat, state: nat, stateOpen: nat, done: nat)

  predicate InOrder(t: Readings) {
    && t.fork <= t.forkOpen <= t.forkedAt <= t.wait <= t.waitOpen
    && t.waitOpen <= t.reap <= t.reapOpen <= t.attach <= t.attachOpen <= t.hooks <= t.hooksOpen
    && t.hooksOpen <= t.init <= t.initOpen <= t.initStarted <= t.state <= t.stateOpen <= t.done
  }

  /** What a child sends: the phases of a recorder that began at `origin` and was taken at `sent`. */
  datatype Report = Report(origin: nat, sent: nat, phases: seq<Phase>)

  ghost predicate Recorded(r: Report) {
    r.origin <= r.sent && Sequential(r.phases) && Inside(r.phases, 0, Micros(r.origin, r.sent))
  }

  /** A child's recorder hands over exactly such a report, whatever it was asked to time: one phase for
      each `begin`, from that call's second reading to the first reading of the next call. */
  method ChildReports(names: seq<string>, origin: nat, closing: seq<nat>, opening: seq<nat>, sent: nat)
    returns (r: Report)
    requires |closing| == |opening| == |names| && origin <= sent
    requires forall i :: 0 <= i < |names| ==> origin <= closing[i] <= opening[i] <= sent
    requires forall i, j :: 0 <= i < j < |names| ==> opening[i] <= closing[j]
    ensures Recorded(r) && r.origin == origin && r.sent == sent
    ensures |r.phases| == |names|
    ensures forall i :: 0 <= i < |names| ==>
              r.phases[i] == Phase(names[i], Micros(origin, opening[i]),
                                   Micros(origin, if i + 1 < |names| then closing[i + 1] else sent))
  {
    var clock := new Recorder(origin);
    for i := 0 to |names|
      invariant clock.Valid() && clock.origin == origin && clock.phases == clock.own
      invariant clock.latest == if i == 0 then origin else opening[i - 1]
      invariant clock.open == if i == 0 then None else Some((names[i - 1], Micros(origin, opening[i - 1])))
      invariant |clock.phases| == if i == 0 then 0 else i - 1
      invariant forall k :: 0 <= k < |clock.phases| ==>
                  clock.phases[k] == Phase(names[k], Micros(origin, opening[k]), Micros(origin, closing[k + 1]))
    {
      clock.Begin(names[i], closing[i], opening[i]);
    }
    var phases := clock.Take(sent);
    r := Report(origin, sent, phases);
  }

  /** The spans of the parent up to the reaping of the intermediate, and from there to the end. */
  function EarlySpans(origin: nat, t: Readings): (Phase, Phase)
    requires origin <= t.fork && InOrder(t)
  {
    (Phase("fork", Micros(origin, t.forkOpen), Micros(origin, t.wait)),
     Phase("wait.initpid", Micros(origin, t.waitOpen), Micros(origin, t.reap)))
  }

  function LateSpans(origin: nat, t: Readings): seq<Phase>
    requires origin <= t.fork && InOrder(t)
  {
    [Phase("reap.intermediate", Micros(origin, t.reapOpen), Micros(origin, t.attach)),
     Phase("cgroup.attach", Micros(origin, t.attachOpen), Micros(origin, t.hooks)),
     Phase("hooks.createRuntime", Micros(origin, t.hooksOpen), Micros(origin, t.init)),
     Phase("init", Micros(origin, t.initOpen), Micros(origin, t.state)),
     Phase("state", Micros(origin, t.stateOpen), Micros(origin, t.done))]
  }

  /** The calls on the parent's clock until the intermediate is reaped. */
  method TraceFork(clock: Recorder, t: Readings, middle: Report)
    requires clock.Valid() && clock.latest <= t.fork && InOrder(t)
    modifies clock
    ensures clock.Valid() && clock.latest == t.reapOpen
    ensures clock.open == Some(("reap.intermediate", Micros(clock.origin, t.reapOpen)))
    ensures var (fork, wait) := EarlySpans(clock.origin, t);
            var closed := Closed(old(clock.open), Micros(clock.origin, t.fork));
            && clock.own == old(clock.own) + closed + [fork] + [wait]
            && clock.phases == old(clock.phases) + closed + [fork]
                 + Absorbed("intermediate", Micros(clock.origin, t.forkedAt), middle.phases) + [wait]
  {
    clock.Begin("fork", t.fork, t.forkOpen);
    var forkedAt := Micros(clock.origin, t.forkedAt);
    clock.Begin("wait.initpid", t.wait, t.waitOpen);
    clock.Absorb("intermediate", forkedAt, middle.phases);
    clock.Begin("reap.intermediate", t.reap, t.reapOpen);
  }

  /** The calls from there on. */
  method TraceInit(clock: Recorder, t: Readings, init: Report)
    requires clock.Valid() && clock.origin <= t.fork && clock.latest == t.reapOpen && InOrder(t)
    requires clock.open == Some(("reap.intermediate", Micros(clock.origin, t.reapOpen)))
    modifies clock
    ensures clock.Valid() && clock.latest == t.done && clock.open == None
    ensures clock.own == old(clock.own) + LateSpans(clock.origin, t)
    ensures clock.phases == old(clock.phases) + LateSpans(clock.origin, t)
              + Absorbed("init", Micros(clock.origin, t.initStarted), init.phases)
  {
    clock.Begin("cgroup.attach", t.attach, t.attachOpen);
    clock.Begin("hooks.createRuntime", t.hooks, t.hooksOpen);
    clock.Begin("init", t.init, t.initOpen);
    var initStarted := Micros(clock.origin, t.initStarted);
    clock.Begin("state", t.state, t.stateOpen);
    clock.End(t.done);
    clock.Absorb("init", initStarted, init.phases);
  }

  /** On one clock, which is to say when the intermediate joins no time namespace that moves its own
      (`NestingNeedsOneClock`): the intermediate starts its clock after the fork was timed and reports
      before its packet is read; the init starts its clock after CgroupApplied was sent and reports
      before InitReady is read. Then every span of the intermediate lies between the start of `fork` and
      the end of `wait.initpid`, and every span of the init inside `init`. */
  lemma ChildSpansNest(origin: nat, t: Readings, middle: Report, init: Report)
    requires origin <= t.fork && InOrder(t)
    requires Recorded(middle) && t.forkedAt <= middle.origin && middle.sent <= t.reap
    requires Recorded(init) && t.initStarted <= init.origin && init.sent <= t.state
    ensures var (fork, wait) := EarlySpans(origin, t);
            Inside(Absorbed("intermediate", Micros(origin, t.forkedAt), middle.phases), fork.start, wait.end)
    ensures var span := LateSpans(origin, t)[3];
            Inside(Absorbed("init", Micros(origin, t.initStarted), init.phases), span.start, span.end)
  {
    AbsorbedIsInside("intermediate", origin, t.forkedAt, middle.origin, middle.sent, middle.phases);
    AbsorbedIsInside("init", origin, t.initStarted, init.origin, init.sent, init.phases);
    MicrosMonotone(origin, t.forkOpen, t.forkedAt);
    MicrosMonotone(origin, middle.sent, t.reap);
    MicrosMonotone(origin, t.initOpen, t.initStarted);
    MicrosMonotone(origin, init.sent, t.state);
  }

  /** A reading of a clock that was moved by a joined time namespace after the recorder began; a time
      before the origin counts as none. */
  function Elapsed(origin: nat, now: int): nat {
    if now < origin then 0 else (now - origin) / 1_000
  }

  /** A phase that was open when the clock moved ends neither before its start nor after the parent's own
      reading of that moment. */
  predicate Fits(shift: int, origin: nat, start: nat, end: nat) {
    Elapsed(origin, start) <= Elapsed(origin, end + shift) <= Elapsed(origin, end)
  }

  ghost predicate NestsWhenMoved(shift: int) {
    forall origin: nat, start: nat, end: nat :: origin <= start <= end ==> Fits(shift, origin, start, end)
  }

  /** So the `join` phase of the intermediate is sure to nest if and only if joining moves the clock by
      nothing. */
  lemma NestingNeedsOneClock(shift: int)
    ensures NestsWhenMoved(shift) <==> shift == 0
  {
    if shift > 0 {
      assert !Fits(shift, 0, 0, 999);
    } else if shift < 0 {
      assert !Fits(shift, 0, 1_000, 1_000);
    }
  }

  /** The whole handshake on the parent's clock: nothing is lost, the parent's own spans follow one
      another, and the spans of both children are nested as `ChildSpansNest` says. */
  method TraceHandshake(clock: Recorder, t: Readings, middle: Report, init: Report)
    requires clock.Valid() && clock.latest <= t.fork && InOrder(t)
    requires Recorded(middle) && t.forkedAt <= middle.origin && middle.sent <= t.reap
    requires Recorded(init) && t.initStarted <= init.origin && init.sent <= t.state
    modifies clock
    ensures clock.Valid() && clock.open == None && Sequential(clock.own)
    ensures var (fork, wait) := EarlySpans(clock.origin, t);
            var late := LateSpans(clock.origin, t);
            var closed := Closed(old(clock.open), Micros(clock.origin, t.fork));
            var moved := Absorbed("intermediate", Micros(clock.origin, t.forkedAt), middle.phases);
            var nested := Absorbed("init", Micros(clock.origin, t.initStarted), init.phases);
            && clock.own == old(clock.own) + closed + [fork] + [wait] + late
            && clock.phases == old(clock.phases) + closed + [fork] + moved + [wait] + late + nested
            && Inside(moved, fork.start, wait.end)
            && Inside(nested, late[3].start, late[3].end)
  {
    TraceFork(clock, t, middle);
    TraceInit(clock, t, init);
    ChildSpansNest(clock.origin, t, middle, init);
  }

  // ----- the exported root span

  /** `export` ends the root span at the latest end of any phase. */
  method RootEnd(phases: seq<Phase>) returns (total: nat)
    ensures forall i :: 0 <= i < |phases| ==> phases[i].end <= total
    ensures phases != [] ==> exists i :: 0 <= i < |phases| && phases[i].end == total
    ensures phases == [] ==> total == 0
  {
    total := 0;
    for i := 0 to |phases|
      invariant forall k :: 0 <= k < i ==> phases[k].end <= total
      invariant i > 0 ==> exists k :: 0 <= k < i && phases[k].end == total
      invariant i == 0 ==> total == 0
    {
      if i == 0 || phases[i].end > total {
        total := phases[i].end;
      }
    }
  }
}
