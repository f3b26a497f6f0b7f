/** What a successful `create` leaves for `start` and `status` (src/container/mod.rs, `handshake` and `start`;
    src/container/fifo.rs, `create`). */
module CreateToStart {
  import opened Wrappers
  import C = CreateProtocol
  import CreateOutcome
  import CreateSafety
  import G = StartGate

  /** The gate as `start` finds it, with `n` calls about to begin. A dead init has not been reaped. */
  function Gate(s: C.State, n: nat): G.State
    requires s.disk.record.Some?
  {
    G.State(seq(n, _ => G.Idle),
            if C.InitAlive(s) then G.InitPc.Parking else G.InitPc.Dead,
            s.disk.fifo, 0, 0, 0, 0, [],
            Some(s.disk.record.value.startTime), s.disk.record.value.startTime, true,
            s.around.freezer.own || s.around.freezer.above)
  }

  /** As long as nobody has started it, a container that was created is one `StartGate` begins with, is not
      frozen, and is reported Created; and so is one whose init has died and was not reaped. */
  lemma CreatedIsReady(c: C.Config, choices: seq<C.Choice>, n: nat)
    requires C.Run(c, choices).Some? && C.Run(c, choices).value.parent == C.Returned(true)
    ensures var s := C.Run(c, choices).value;
            && s.disk.record == Some(C.Record(c.initPid, c.initStart))
            && (s.init.Parked? ==> G.Start(Gate(s, n)))
            && Gate(s, n).linked && G.StatusOf(Gate(s, n)) == G.Created
  {
    CreateOutcome.SuccessKeepsItsPromise(c, choices);
    CreateSafety.RunKeepsInv(c, choices);
    if C.WillFreeze(c) {
      CreateOutcome.FrozenLeafNeverSucceeds(c, choices);
    }
    TakenBySuccess(c, C.Run(c, choices).value);
  }

  lemma TakenBySuccess(c: C.Config, s: C.State)
    requires C.Inv(c, s) && s.parent == C.Returned(true)
    ensures s.around.freezer == C.FreezerAfter(c)
  {
  }
}
