/** The import-state store both pipelines checkpoint into, as an abstract
    collaborator: one JSON blob per identifier in the `importstate`
    container, modelled as a map. A missing container is an empty map. */
module StateStore {
  import opened Wrappers

  class StateStore<S> {
    /** The stored state of each identifier. */
    var states: map<string, S>
    /** The number of `UpdateImportState` calls issued so far. */
    var updates: nat
    /** The ordinals of the update calls that fail, changing nothing. */
    const updateFaults: set<nat>

    constructor (states: map<string, S>, updateFaults: set<nat>)
      ensures this.states == states && updates == 0 && this.updateFaults == updateFaults
    {
      this.states, updates, this.updateFaults := states, 0, updateFaults;
    }

    /** `ByIdentifier`: the stored state, or null when the container or the
        blob is missing. */
    method ByIdentifier(identifier: string) returns (r: Option<S>)
      ensures r.Some? <==> identifier in states
      ensures r.Some? ==> r.value == states[identifier]
    {
      r := if identifier in states then Some(states[identifier]) else None;
    }

    /** `UpdateImportState`: write the state under its own identifier, which
        the caller passes as `identifier` (`state.Identifier`). */
    method UpdateImportState(identifier: string, state: S) returns (ok: bool)
      modifies this`states, this`updates
      ensures updates == old(updates) + 1
      ensures ok <==> old(updates) !in updateFaults
      ensures states == if ok then old(states)[identifier := state] else old(states)
    {
      ok := updates !in updateFaults;
      updates := updates + 1;
      if ok {
        states := states[identifier := state];
      }
    }
  }
}
