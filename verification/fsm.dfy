/** Package `helpers`: the guarded state machine, with the transitions of contract `core`. */
module FsmHelper {
  import opened Results
  import opened ProtocolTypes
  import CoreSpec

  datatype Transition = Transition(from: ContractState, to: ContractState)

  const TRANSITIONS: seq<Transition> := [
    Transition(Idle, Claiming),
    Transition(Idle, Staking),
    Transition(Idle, Transfering),
    Transition(Claiming, Transfering),
    Transition(Transfering, Staking),
    Transition(Staking, Unbonding),
    Transition(Claiming, Staking),
    Transition(Staking, Idle),
    Transition(Unbonding, Idle),
    Transition(Transfering, Idle),
    Transition(Claiming, Idle)
  ]

  /** The table lists exactly the allowed moves. */
  lemma TableIsAllowed(from: ContractState, to: ContractState)
    ensures CoreSpec.Allowed(from, to) <==> Transition(from, to) in TRANSITIONS
  {
    assert TRANSITIONS[0] == Transition(Idle, Claiming);
    assert TRANSITIONS[1] == Transition(Idle, Staking);
    assert TRANSITIONS[2] == Transition(Idle, Transfering);
    assert TRANSITIONS[3] == Transition(Claiming, Transfering);
    assert TRANSITIONS[4] == Transition(Transfering, Staking);
    assert TRANSITIONS[5] == Transition(Staking, Unbonding);
    assert TRANSITIONS[6] == Transition(Claiming, Staking);
    assert TRANSITIONS[7] == Transition(Staking, Idle);
    assert TRANSITIONS[8] == Transition(Unbonding, Idle);
    assert TRANSITIONS[9] == Transition(Transfering, Idle);
    assert TRANSITIONS[10] == Transition(Claiming, Idle);
  }

  class Fsm {
    var state: ContractState

    constructor (initial: ContractState)
      ensures state == initial
    {
      state := initial;
    }

    /** Moves to a state when the table lists the transition, and refuses otherwise. */
    method GoTo(to: ContractState) returns (r: Result<()>)
      modifies this
      ensures r == if CoreSpec.Allowed(old(state), to) then Ok(()) else Err(TransitionNotAllowed)
      ensures state == if r.Ok? then to else old(state)
    {
      TableIsAllowed(state, to);
      for i := 0 to |TRANSITIONS|
        invariant state == old(state)
        invariant Transition(state, to) !in TRANSITIONS[..i]
      {
        if TRANSITIONS[i] == Transition(state, to) {
          state := to;
          return Ok(());
        }
      }
      assert TRANSITIONS[..|TRANSITIONS|] == TRANSITIONS;
      return Err(TransitionNotAllowed);
    }
  }
}
