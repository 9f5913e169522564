/** The coordinator of task groups: it counts the pending tasks of each group, gathers
    payloads, and runs the completion hook when the last task of a group is done. */
module TaskGroup {
  import opened Wrappers

  /** What the completion hook is told: a source to remove, or a directory written to. */
  datatype Payload = SrcPathToRemove(path: seq<string>) | DstPathToHook(path: seq<string>)

  datatype GroupState = GroupState(pending: nat, hasSuccess: bool)

  /** The two tables of the coordinator. */
  datatype Groups = Groups(states: map<string, GroupState>, payloads: map<string, seq<Payload>>)

  /** What a call of Done comes to, beside the new tables: nothing, or the end of a group,
      with the payloads gathered and whether the hook is run with them. */
  datatype Outcome = Counted | Ended(gathered: seq<Payload>, notified: bool)

  const EMPTY := Groups(map[], map[])

  function StateOf(g: Groups, id: string): GroupState {
    if id in g.states then g.states[id] else GroupState(0, false)
  }

  function Gathered(g: Groups, id: string): seq<Payload> {
    if id in g.payloads then g.payloads[id] else []
  }

  function Appended(g: Groups, id: string, payload: Option<Payload>): Groups {
    if payload.None? then g else g.(payloads := g.payloads[id := Gathered(g, id) + [payload.value]])
  }

  function Added(g: Groups, id: string, payload: Option<Payload>): Groups {
    var st := StateOf(g, id);
    Appended(g.(states := g.states[id := st.(pending := st.pending + 1)]), id, payload)
  }

  function DoneWith(g: Groups, id: string, success: bool): (Groups, Outcome) {
    var st := StateOf(g, id);
    var hasSuccess := st.hasSuccess || success;
    if st.pending == 0 then (g, Counted)
    else if st.pending == 1 then
      (Groups(g.states - {id}, g.payloads - {id}), Ended(Gathered(g, id), hasSuccess))
    else
      (g.(states := g.states[id := GroupState(st.pending - 1, hasSuccess)]), Counted)
  }

  /** The object itself; each method runs under its mutex, and the hook is run after the
      tables are cleared, by the caller of Done. */
  class TaskGroupCoordinator {
    var groupStates: map<string, GroupState>
    var groupPayloads: map<string, seq<Payload>>

    ghost function Tables(): Groups
      reads this
    {
      Groups(groupStates, groupPayloads)
    }

    constructor ()
      ensures Tables() == EMPTY
    {
      groupStates, groupPayloads := map[], map[];
    }

    method AddTask(groupID: string, payload: Option<Payload>)
      modifies this
      ensures Tables() == Added(old(Tables()), groupID, payload)
    {
      var state := if groupID in groupStates then groupStates[groupID] else GroupState(0, false);
      groupStates := groupStates[groupID := state.(pending := state.pending + 1)];
      AppendPayload(groupID, payload);
    }

    method AppendPayload(groupID: string, payload: Option<Payload>)
      modifies `groupPayloads
      ensures Tables() == Appended(old(Tables()), groupID, payload)
    {
      if payload.None? {
        return;
      }
      var payloads := if groupID in groupPayloads then groupPayloads[groupID] else [];
      groupPayloads := groupPayloads[groupID := payloads + [payload.value]];
    }

    method Done(groupID: string, success: bool) returns (outcome: Outcome)
      modifies this
      ensures (Tables(), outcome) == DoneWith(old(Tables()), groupID, success)
    {
      if groupID !in groupStates || groupStates[groupID].pending == 0 {
        return Counted;
      }
      var state := groupStates[groupID];
      if success {
        state := state.(hasSuccess := true);
      }
      if state.pending == 1 {
        var payloads := if groupID in groupPayloads then groupPayloads[groupID] else [];
        groupStates := groupStates - {groupID};
        groupPayloads := groupPayloads - {groupID};
        return Ended(payloads, state.hasSuccess);
      }
      groupStates := groupStates[groupID := state.(pending := state.pending - 1)];
      return Counted;
    }
  }

  /*** any sequence of calls ***/

  datatype Call =
    | Add(id: string, payload: Option<Payload>)
    | Append(id: string, payload: Option<Payload>)
    | Done(id: string, success: bool)

  function Apply(g: Groups, c: Call): (Groups, Outcome) {
    match c
    case Add(id, payload) => (Added(g, id, payload), Counted)
    case Append(id, payload) => (Appended(g, id, payload), Counted)
    case Done(id, success) => DoneWith(g, id, success)
  }

  function After(calls: seq<Call>): Groups {
    if calls == [] then EMPTY else Apply(After(calls[..|calls| - 1]), calls[|calls| - 1]).0
  }

  /** The payloads handed in for a group, in order. */
  function HandedIn(calls: seq<Call>, id: string): seq<Payload> {
    if calls == [] then []
    else
      var c := calls[|calls| - 1];
      HandedIn(calls[..|calls| - 1], id)
      + if !c.Done? && c.id == id && c.payload.Some? then [c.payload.value] else []
  }

  /** The payloads of the ends of a group, in order. */
  function HandedOut(calls: seq<Call>, id: string): seq<Payload> {
    if calls == [] then []
    else
      var before := calls[..|calls| - 1];
      HandedOut(before, id) + OutBy(before, calls[|calls| - 1], id)
  }

  /** What one call ends the group with. */
  function OutBy(before: seq<Call>, c: Call, id: string): seq<Payload> {
    var outcome := Apply(After(before), c).1;
    if c.id == id && outcome.Ended? then outcome.gathered else []
  }

  function Adds(calls: seq<Call>, id: string): nat {
    if calls == [] then 0
    else Adds(calls[..|calls| - 1], id) + if calls[|calls| - 1].Add? && calls[|calls| - 1].id == id then 1 else 0
  }

  /** The calls of Done that found a pending task of the group. */
  function EffectiveDones(calls: seq<Call>, id: string): nat {
    if calls == [] then 0
    else
      var before, c := calls[..|calls| - 1], calls[|calls| - 1];
      EffectiveDones(before, id) + if c.Done? && c.id == id && StateOf(After(before), id).pending > 0 then 1 else 0
  }

  /** The tasks added are those done and those pending; a call of Done without a pending
      task does nothing. */
  lemma {:induction false} TasksConserved(calls: seq<Call>, id: string)
    ensures Adds(calls, id) == EffectiveDones(calls, id) + StateOf(After(calls), id).pending
  {
    if calls != [] {
      TasksConserved(calls[..|calls| - 1], id);
    }
  }

  /** Every payload handed in is handed to exactly one end of its group, in order, or still
      gathered: none is lost, repeated, or given to another group. */
  lemma {:induction false} PayloadsConserved(calls: seq<Call>, id: string)
    ensures HandedIn(calls, id) == HandedOut(calls, id) + Gathered(After(calls), id)
  {
    if calls != [] {
      PayloadsConserved(calls[..|calls| - 1], id);
      PayloadStep(calls[..|calls| - 1], calls[|calls| - 1], id);
    }
  }

  lemma PayloadStep(before: seq<Call>, c: Call, id: string)
    ensures var now := Apply(After(before), c).0;
      Gathered(After(before), id) + (if !c.Done? && c.id == id && c.payload.Some? then [c.payload.value] else [])
      == OutBy(before, c, id) + Gathered(now, id)
  {
  }

  /** A group that is not pending has no success recorded; a group ends exactly when its
      last pending task is done. */
  lemma {:induction false} EndsExactlyAtZero(calls: seq<Call>, c: Call)
    ensures var g := After(calls); var (now, outcome) := Apply(g, c);
      && (outcome.Ended? <==> c.Done? && StateOf(g, c.id).pending == 1)
      && (outcome.Ended? ==> StateOf(now, c.id) == GroupState(0, false) && Gathered(now, c.id) == [])
      && (outcome.Ended? ==> (outcome.notified <==> c.success || StateOf(g, c.id).hasSuccess))
      && (StateOf(g, c.id).pending == 0 ==> !StateOf(g, c.id).hasSuccess)
  {
    Idle(calls, c.id);
  }

  lemma {:induction false} Idle(calls: seq<Call>, id: string)
    ensures StateOf(After(calls), id).pending == 0 ==> id !in After(calls).states
  {
    if calls != [] {
      Idle(calls[..|calls| - 1], id);
    }
  }

  /** Some task of the group succeeded since the group last ended. */
  function SuccessSince(calls: seq<Call>, id: string): bool {
    calls != [] &&
    (var before, c := calls[..|calls| - 1], calls[|calls| - 1];
     if c.Done? && c.id == id && Adds(before, id) > EffectiveDones(before, id) then
       (SuccessSince(before, id) || c.success) && Adds(before, id) > EffectiveDones(before, id) + 1
     else SuccessSince(before, id))
  }

  /** The hook is told of an end exactly if a task since the end before succeeded. */
  lemma {:induction false} ToldIffSucceeded(calls: seq<Call>, c: Call)
    ensures var outcome := Apply(After(calls), c).1;
      outcome.Ended? ==> (outcome.notified <==> c.success || SuccessSince(calls, c.id))
  {
    SuccessRecorded(calls, c.id);
  }

  lemma {:induction false} SuccessRecorded(calls: seq<Call>, id: string)
    ensures StateOf(After(calls), id).hasSuccess == SuccessSince(calls, id)
  {
    if calls != [] {
      SuccessRecorded(calls[..|calls| - 1], id);
      TasksConserved(calls[..|calls| - 1], id);
    }
  }
}
