/** Running the hooks of one phase (src/container/hooks.rs, `run`). A hook is what it turns out to do:
    exit with success, or fail in any of the ways `one` reports. */
module Hooks {
  import opened Wrappers

  datatype Phase = Prestart | CreateRuntime | CreateContainer | StartContainer | Poststart | Poststop

  predicate IsFatal(phase: Phase) {
    !(phase.Poststart? || phase.Poststop?)
  }

  datatype Hook = Hook(id: nat, succeeds: bool)

  datatype Failure = HookFailed(phase: Phase, index: nat, id: nat)

  /** `run`. The hooks run in their listed order and from the first one on. A failure is reported
      exactly when the phase is fatal and some hook fails, which is to say before the program runs; it names the first that does, which is the
      last to have run. Otherwise all have run, failing or not. */
  method Run(list: seq<Hook>, phase: Phase) returns (r: Result<(), Failure>, ran: seq<Hook>)
    ensures ran <= list
    ensures r.Ok? <==> !IsFatal(phase) || forall i :: 0 <= i < |list| ==> list[i].succeeds
    ensures r.Ok? ==> ran == list
    ensures phase == Poststart || phase == Poststop ==> r.Ok?
    ensures phase == Prestart || phase == CreateRuntime || phase == CreateContainer || phase == StartContainer ==>
              (r.Ok? <==> forall i :: 0 <= i < |list| ==> list[i].succeeds)
    ensures r.Err? ==> |ran| > 0 && !ran[|ran| - 1].succeeds
                       && (forall i :: 0 <= i < |ran| - 1 ==> ran[i].succeeds)
                       && r.error == HookFailed(phase, |ran| - 1, ran[|ran| - 1].id)
  {
    ran := [];
    for i := 0 to |list|
      invariant ran == list[..i]
      invariant IsFatal(phase) ==> forall j :: 0 <= j < i ==> list[j].succeeds
    {
      ran := ran + [list[i]];
      if !list[i].succeeds && IsFatal(phase) {
        return Err(HookFailed(phase, i, list[i].id)), ran;
      }
    }
    r := Ok(());
  }
}
