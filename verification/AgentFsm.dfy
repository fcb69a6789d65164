/**
 * The state machine of a resource agent and the state it persists (pyon/agent/instrument_fsm.py,
 * pyon/agent/agent.py).
 */
module AgentFsm {
  import opened Wrappers
  import opened ProcessStates

  const ENTER := "RESOURCE_AGENT_EVENT_ENTER"
  const EXIT := "RESOURCE_AGENT_EVENT_EXIT"
  const AgentState := "agent_state"
  const PrevAgentState := "prev_agent_state"

  datatype Handler = CommonStateEnter | CommonStateExit | Command

  class InstrumentFSM {
    const states: set<string>
    const events: set<string>
    var stateHandlers: map<(string, string), Handler>
    var currentState: Option<string>
    var previousState: Option<string>

    constructor (states: set<string>, events: set<string>)
      ensures this.states == states && this.events == events
      ensures stateHandlers == map[] && currentState == None && previousState == None
    {
      this.states, this.events := states, events;
      stateHandlers, currentState, previousState := map[], None, None;
    }

    /** Handlers are added for declared states and events only. */
    method AddHandler(state: string, event: string, handler: Handler) returns (added: bool)
      modifies this`stateHandlers
      ensures added == (state in states && event in events)
      ensures stateHandlers == if added then old(stateHandlers)[(state, event) := handler] else old(stateHandlers)
    {
      if state !in states { return false; }
      if event !in events { return false; }
      stateHandlers := stateHandlers[(state, event) := handler];
      return true;
    }
  }

  // ------------------------------------------------- what handlers are fired

  datatype Fired = Enter(state: string) | Exit(state: string)

  /** Handlers alternate: a state is entered, then exited, then another is entered. */
  predicate Alternates(trace: seq<Fired>) {
    forall i | 0 <= i < |trace| :: Turn(trace, i)
  }

  predicate Turn(trace: seq<Fired>, i: nat)
    requires i < |trace|
  {
    if i % 2 == 0 then trace[i].Enter? else trace[i] == Exit(trace[i - 1].state)
  }

  /** The state entered last is the only one not exited. */
  predicate In(trace: seq<Fired>, state: string) {
    Alternates(trace) && trace != [] && trace[|trace| - 1] == Enter(state)
  }

  lemma MovesOn(trace: seq<Fired>, state: string, next: string)
    requires In(trace, state)
    ensures In(trace + [Exit(state), Enter(next)], next)
  {
    var n, more := |trace|, trace + [Exit(state), Enter(next)];
    assert Turn(trace, n - 1) && (n - 1) % 2 == 0;
    forall i | 0 <= i < |more| ensures Turn(more, i) {
      if i < n { assert Turn(trace, i) && more[i] == trace[i]; }
      if 0 < i <= n { assert more[i - 1] == trace[i - 1]; }
    }
  }

  /** Every entry of a state but the last is followed by its exit, and every exit follows an entry. */
  lemma EntriesAndExits(trace: seq<Fired>, state: string, i: nat)
    requires In(trace, state) && i < |trace|
    ensures trace[i].Enter? ==> i == |trace| - 1 || trace[i + 1] == Exit(trace[i].state)
    ensures trace[i].Exit? ==> 0 < i < |trace| - 1 && trace[i - 1] == Enter(trace[i].state) && trace[i + 1].Enter?
  {
    var n := |trace|;
    assert Turn(trace, i) && Turn(trace, n - 1);
    if i + 1 < n { assert Turn(trace, i + 1); }
    if i > 0 { assert Turn(trace, i - 1); }
  }

  // ------------------------------------------------- the agent

  /** The states, the events and the handlers of an agent. */
  datatype Machine = Machine(states: set<string>, events: set<string>, handlers: map<(string, string), Handler>)

  /**
   * The current and the previous state, the state vector in memory and whether it is marked as changed, the
   * vector stored, and the enter and exit handlers fired since the machine was started.
   */
  datatype Agent = Agent(current: Option<string>, previous: Option<string>, vector: Vector, changed: bool,
      stored: Vector, trace: seq<Fired>)

  /** Every state has the common handlers, and nothing else handles entry and exit. */
  predicate Constructed(m: Machine) {
    && ENTER in m.events && EXIT in m.events
    && (forall s | s in m.states :: (s, ENTER) in m.handlers && m.handlers[(s, ENTER)] == CommonStateEnter)
    && (forall s | s in m.states :: (s, EXIT) in m.handlers && m.handlers[(s, EXIT)] == CommonStateExit)
    && (forall k | k in m.handlers :: k.0 in m.states && k.1 in m.events)
    && (forall k | k in m.handlers && k.1 != ENTER && k.1 != EXIT :: m.handlers[k] == Command)
  }

  datatype Outcome = Handled | StateError | CommandUnknown | TypeError

  /** What a command handler does: the values it sets in the state vector, and the state it asks for. */
  datatype Effect = Effect(sets: seq<(string, Option<string>)>, next: Option<string>)

  datatype Call = Call(event: string, effect: Effect)

  function SetValue(a: Agent, key: string, value: Option<string>): Agent {
    a.(vector := SetIn(a.vector, key, value), changed := a.changed || Get(a.vector, key) != value)
  }

  function Flushed(a: Agent): Agent { a.(stored := a.vector, changed := false) }

  /** A handler sets values. */
  function Ran(a: Agent, sets: seq<(string, Option<string>)>): Agent {
    if sets == [] then a
    else
      var last := sets[|sets| - 1];
      SetValue(Ran(a, sets[..|sets| - 1]), last.0, last.1)
  }

  /** On entry of a state the agent writes and stores it. */
  function Entered(a: Agent, state: string): Agent {
    Flushed(SetValue(a, AgentState, Some(state))).(trace := a.trace + [Enter(state)])
  }

  /** On exit of a state the agent notes it, to be stored with the next. */
  function Exited(a: Agent, state: string): Agent {
    SetValue(a, PrevAgentState, Some(state)).(trace := a.trace + [Exit(state)])
  }

  function Started(a: Agent, state: string): Agent { Entered(a.(current := Some(state), trace := []), state) }

  function Transited(a: Agent, state: string, next: string): Agent {
    Entered(Exited(a, state).(previous := Some(state), current := Some(next)), next)
  }

  predicate Transits(m: Machine, call: Call) { call.effect.next.Some? && call.effect.next.value in m.states }

  function Commanded(m: Machine, a: Agent, call: Call): Agent
    requires a.current.Some?
  {
    var ran := Ran(a, call.effect.sets);
    if Transits(m, call) then Transited(ran, a.current.value, call.effect.next.value) else ran
  }

  /**
   * An event. When its handler asks for a declared state, the current state is exited and that one entered. Entry
   * and exit given as events fire their handler and then raise.
   */
  function Handle(m: Machine, a: Agent, call: Call): (Agent, Outcome) {
    if call.event !in m.events then (a, CommandUnknown)
    else if a.current.None? || (a.current.value, call.event) !in m.handlers then (a, StateError)
    else
      var state := a.current.value;
      if call.event == ENTER then (Entered(a, state), TypeError)
      else if call.event == EXIT then (Exited(a, state), TypeError)
      else
        (Commanded(m, a, call), Handled)
  }

  /** An event that arrives by a routed call: afterwards, unless it raised, a changed vector is stored. */
  function Routed(m: Machine, a: Agent, call: Call): Agent {
    var (b, outcome) := Handle(m, a, call);
    if outcome == Handled && b.changed then Flushed(b) else b
  }

  // ------------------------------------------------- single events

  /** The current state is a declared one, and a vector not marked as changed is the one stored. */
  predicate Consistent(m: Machine, a: Agent) {
    && (a.current.Some? ==> a.current.value in m.states)
    && (!a.changed ==> a.vector == a.stored)
  }

  /** The state stored is the current one. */
  predicate StoredAgrees(a: Agent) { a.current.Some? ==> Get(a.stored, AgentState) == a.current }

  /** So is the one in memory. */
  predicate Agrees(a: Agent) { StoredAgrees(a) && (a.current.Some? ==> Get(a.vector, AgentState) == a.current) }

  /** The state entered last is the current one, and all before it were exited. */
  predicate InTurn(a: Agent) { a.current.Some? ==> In(a.trace, a.current.value) }

  /** If the event is handled without a transition, its handler leaves the current agent state in the vector. */
  predicate KeepsState(m: Machine, a: Agent, call: Call) {
    Handle(m, a, call).1 == Handled && !Transits(m, call) ==>
      Get(Ran(a, call.effect.sets).vector, AgentState) == a.current
  }

  lemma {:induction false} RanKeepsState(a: Agent, sets: seq<(string, Option<string>)>)
    ensures var b := Ran(a, sets);
      b.current == a.current && b.previous == a.previous && b.stored == a.stored && b.trace == a.trace
    ensures !Ran(a, sets).changed ==> !a.changed && Ran(a, sets).vector == a.vector
    decreases |sets|
  {
    if sets != [] { RanKeepsState(a, sets[..|sets| - 1]); }
  }

  /** A value that no handler sets stays. */
  lemma {:induction false} RanKeeps(a: Agent, sets: seq<(string, Option<string>)>, key: string)
    requires forall i | 0 <= i < |sets| :: sets[i].0 != key
    ensures Get(Ran(a, sets).vector, key) == Get(a.vector, key)
    decreases |sets|
  {
    if sets != [] { RanKeeps(a, sets[..|sets| - 1], key); }
  }

  /** A value that a handler sets is the one it sets last. */
  lemma {:induction false} RanSets(a: Agent, sets: seq<(string, Option<string>)>, i: nat)
    requires i < |sets| && forall j | i < j < |sets| :: sets[j].0 != sets[i].0
    ensures Get(Ran(a, sets).vector, sets[i].0) == sets[i].1
    decreases |sets|
  {
    if i < |sets| - 1 { RanSets(a, sets[..|sets| - 1], i); }
  }

  /** Which events are handled, and that others change nothing. */
  lemma EventDoes(m: Machine, a: Agent, call: Call)
    ensures var (b, outcome) := Handle(m, a, call);
      var known := a.current.Some? && (a.current.value, call.event) in m.handlers;
      var own := call.event == "RESOURCE_AGENT_EVENT_ENTER" || call.event == "RESOURCE_AGENT_EVENT_EXIT";
      && (outcome == CommandUnknown <==> call.event !in m.events)
      && (outcome == StateError <==> call.event in m.events && !known)
      && (outcome == TypeError <==> call.event in m.events && known && own)
      && (outcome == CommandUnknown || outcome == StateError ==> b == a)
  {
  }

  /**
   * What a handled event leaves: the values its handler set, and after a transition the state moved to and the one
   * left, in the machine, in the vector and in the store.
   */
  lemma HandledDoes(m: Machine, a: Agent, call: Call)
    requires Handle(m, a, call).1 == Handled
    ensures var b, ran := Handle(m, a, call).0, Ran(a, call.effect.sets).vector;
      if call.effect.next.Some? && call.effect.next.value in m.states then
        && b.current == call.effect.next && b.previous == a.current
        && Get(b.vector, "agent_state") == call.effect.next && Get(b.vector, "prev_agent_state") == a.current
        && (forall k | k != "agent_state" && k != "prev_agent_state" :: Get(b.vector, k) == Get(ran, k))
        && b.stored == b.vector && !b.changed
      else b.current == a.current && b.previous == a.previous && b.vector == ran && b.stored == a.stored
  {
    RanKeepsState(a, call.effect.sets);
  }

  /** Entry and exit given as events write the current state, and the entry stores it. */
  lemma FiredDoes(m: Machine, a: Agent, call: Call)
    requires Handle(m, a, call).1 == TypeError
    ensures var b := Handle(m, a, call).0; var key := if call.event == ENTER then "agent_state" else "prev_agent_state";
      && b.current == a.current && b.previous == a.previous && Get(b.vector, key) == a.current
      && (forall k | k != key :: Get(b.vector, k) == Get(a.vector, k))
      && b.stored == if call.event == ENTER then b.vector else a.stored
  {
  }

  /**
   * The event alone: whatever handlers set, it keeps the stored state the current one; one that enters a state
   * makes it so.
   */
  lemma EventStores(m: Machine, a: Agent, call: Call)
    requires Consistent(m, a)
    ensures var (b, outcome) := Handle(m, a, call);
      && Consistent(m, b) && b.current.Some? == a.current.Some?
      && (outcome == Handled && Transits(m, call) ==> !b.changed)
      && (StoredAgrees(b)
            <==>
              || StoredAgrees(a) || (outcome == Handled && Transits(m, call))
              || (outcome == TypeError && call.event == ENTER))
  {
    RanKeepsState(a, call.effect.sets);
  }

  /**
   * What is stored after the routed call is the agent state in memory: from agreement, agreement stays exactly
   * if the handler leaves the agent state as it is or asks for a transition.
   */
  lemma CallAgrees(m: Machine, a: Agent, call: Call)
    requires Consistent(m, a)
    ensures var b := Routed(m, a, call);
      && Consistent(m, b)
      && (Handle(m, a, call).1 == Handled ==>
            b.stored == b.vector && (StoredAgrees(b) <==> Transits(m, call) || KeepsState(m, a, call)))
    ensures Agrees(a) ==> (Agrees(Routed(m, a, call)) <==> KeepsState(m, a, call))
  {
    RanKeepsState(a, call.effect.sets);
  }

  /** A call that raises leaves the vector as the event did, stored or not; after any other it is stored. */
  lemma RoutedDoes(m: Machine, a: Agent, call: Call)
    requires Consistent(m, a)
    ensures var (b, outcome) := Handle(m, a, call);
      Routed(m, a, call) == if outcome == Handled then b.(stored := b.vector, changed := false) else b
  {
    CallAgrees(m, a, call);
    RanKeepsState(a, call.effect.sets);
  }

  lemma CallInTurn(m: Machine, a: Agent, call: Call)
    requires Consistent(m, a) && InTurn(a)
    ensures InTurn(Routed(m, a, call)) <==> Handle(m, a, call).1 != TypeError
    ensures InTurn(Handle(m, a, call).0) <==> Handle(m, a, call).1 != TypeError
  {
    RanKeepsState(a, call.effect.sets);
    if a.current.Some? {
      var state := a.current.value;
      OutOfTurn(a.trace, state);
      if Transits(m, call) { MovesOn(a.trace, state, call.effect.next.value); }
      var next := if Transits(m, call) then call.effect.next.value else state;
      assert a.trace + [Exit(state)] + [Enter(next)] == a.trace + [Exit(state), Enter(next)];
    }
  }

  /** Firing only one of the two handlers breaks the alternation. */
  lemma OutOfTurn(trace: seq<Fired>, state: string)
    requires In(trace, state)
    ensures !In(trace + [Enter(state)], state) && !In(trace + [Exit(state)], state)
  {
    var n := |trace|;
    var entered, exited := trace + [Enter(state)], trace + [Exit(state)];
    assert Turn(trace, n - 1) && trace[n - 1] == Enter(state);
    assert entered[n] == Enter(state) && !Turn(entered, n);
    assert exited[n] == Exit(state);
  }

  // ------------------------------------------------- runs of events

  function Run(m: Machine, a: Agent, calls: seq<Call>): Agent
    decreases |calls|
  {
    if calls == [] then a else Run(m, Routed(m, a, calls[0]), calls[1..])
  }

  /** The agent before each call and after the last. */
  function Moments(m: Machine, a: Agent, calls: seq<Call>): seq<Agent>
    decreases |calls|
  {
    if calls == [] then [a] else [a] + Moments(m, Routed(m, a, calls[0]), calls[1..])
  }

  predicate AllKeepState(m: Machine, a: Agent, calls: seq<Call>)
    decreases |calls|
  {
    calls != [] ==> KeepsState(m, a, calls[0]) && AllKeepState(m, Routed(m, a, calls[0]), calls[1..])
  }

  predicate NoneRaisesType(m: Machine, a: Agent, calls: seq<Call>)
    decreases |calls|
  {
    calls != [] ==>
      Handle(m, a, calls[0]).1 != TypeError && NoneRaisesType(m, Routed(m, a, calls[0]), calls[1..])
  }

  /** At every moment of a run the current state is declared. */
  lemma {:induction false} RunStaysDeclared(m: Machine, a: Agent, calls: seq<Call>)
    requires Consistent(m, a)
    ensures forall b | b in Moments(m, a, calls) :: Consistent(m, b)
    ensures Run(m, a, calls) in Moments(m, a, calls)
    decreases |calls|
  {
    if calls != [] {
      CallAgrees(m, a, calls[0]);
      RunStaysDeclared(m, Routed(m, a, calls[0]), calls[1..]);
    }
  }

  /**
   * At every moment of a run the states in memory and stored are the current one, exactly if every handler that
   * asks for no transition leaves the agent state as it is.
   */
  lemma {:induction false} RunAgrees(m: Machine, a: Agent, calls: seq<Call>)
    requires Consistent(m, a)
    requires a.current.Some? ==> Get(a.stored, AgentState) == Get(a.vector, AgentState) == a.current
    ensures AllKeepState(m, a, calls) <==> forall b | b in Moments(m, a, calls) ::
      b.current.Some? ==> Get(b.stored, AgentState) == Get(b.vector, AgentState) == b.current
    decreases |calls|
  {
    if calls != [] {
      var next := Routed(m, a, calls[0]);
      CallAgrees(m, a, calls[0]);
      if Agrees(next) { RunAgrees(m, next, calls[1..]); }
      MomentsFrom(m, a, calls);
    }
  }

  lemma MomentsFrom(m: Machine, a: Agent, calls: seq<Call>)
    requires calls != []
    ensures var rest := Moments(m, Routed(m, a, calls[0]), calls[1..]);
      Routed(m, a, calls[0]) in rest && forall b :: b in Moments(m, a, calls) <==> b == a || b in rest
  {
  }

  /** At every moment entries and exits have alternated, exactly if neither was ever given as an event. */
  lemma {:induction false} RunInTurn(m: Machine, a: Agent, calls: seq<Call>)
    requires Consistent(m, a) && InTurn(a)
    ensures (forall b | b in Moments(m, a, calls) :: InTurn(b)) <==> NoneRaisesType(m, a, calls)
    decreases |calls|
  {
    if calls != [] {
      var next := Routed(m, a, calls[0]);
      CallAgrees(m, a, calls[0]);
      CallInTurn(m, a, calls[0]);
      if InTurn(next) { RunInTurn(m, next, calls[1..]); }
      MomentsFrom(m, a, calls);
    }
  }

  /** The state that a call moves to, if any. */
  function Move(m: Machine, a: Agent, call: Call): (r: seq<string>)
    ensures |r| <= 1
  {
    if Handle(m, a, call).1 == Handled && Transits(m, call) then [call.effect.next.value] else []
  }

  /** The states that a run moves to, one after another. */
  function Path(m: Machine, a: Agent, calls: seq<Call>): seq<string>
    decreases |calls|
  {
    if calls == [] then []
    else
      Move(m, a, calls[0]) + Path(m, Routed(m, a, calls[0]), calls[1..])
  }

  /** What going from one state through others fires. */
  function Travelled(state: string, path: seq<string>): seq<Fired>
    decreases |path|
  {
    if path == [] then [] else [Exit(state), Enter(path[0])] + Travelled(path[0], path[1..])
  }

  /** The state that a path ends in. */
  function Last(state: string, path: seq<string>): string { if path == [] then state else path[|path| - 1] }

  lemma CallTravels(m: Machine, a: Agent, call: Call)
    requires Consistent(m, a) && a.current.Some? && Handle(m, a, call).1 != TypeError
    ensures var b, move := Routed(m, a, call), Move(m, a, call);
      && Consistent(m, b) && b.current == Some(Last(a.current.value, move))
      && b.trace == a.trace + Travelled(a.current.value, move)
  {
    RanKeepsState(a, call.effect.sets);
    var state, move := a.current.value, Move(m, a, call);
    if move != [] { assert Travelled(state, move) == [Exit(state), Enter(move[0])] + Travelled(move[0], []); }
  }

  /** Over a run the handlers fired are those of the states it moves through, and the last of them is current. */
  lemma {:induction false} RunTravels(m: Machine, a: Agent, calls: seq<Call>)
    requires Consistent(m, a) && a.current.Some? && NoneRaisesType(m, a, calls)
    ensures var b, path := Run(m, a, calls), Path(m, a, calls);
      && b.trace == a.trace + Travelled(a.current.value, path)
      && b.current == Some(Last(a.current.value, path))
    decreases |calls|
  {
    if calls != [] {
      var next, state := Routed(m, a, calls[0]), a.current.value;
      CallTravels(m, a, calls[0]);
      RunTravels(m, next, calls[1..]);
      TravelledFrom(state, Move(m, a, calls[0]), Path(m, next, calls[1..]));
    }
  }

  lemma TravelledFrom(state: string, move: seq<string>, path: seq<string>)
    requires |move| <= 1
    ensures Travelled(state, move + path) == Travelled(state, move) + Travelled(Last(state, move), path)
    ensures Last(state, move + path) == Last(Last(state, move), path)
  {
    if move == [] {
      assert move + path == path;
    } else {
      assert (move + path)[1..] == path && move[1..] == [];
    }
  }

  /** So over a run every entry of a state but the last is followed by its exit, and every exit follows an entry. */
  lemma RunPairsUp(m: Machine, a: Agent, calls: seq<Call>, i: nat)
    requires Consistent(m, a) && a.current.Some? && InTurn(a) && NoneRaisesType(m, a, calls)
    requires i < |Run(m, a, calls).trace|
    ensures var trace := Run(m, a, calls).trace;
      && (trace[i].Enter? ==> i == |trace| - 1 || trace[i + 1] == Exit(trace[i].state))
      && (trace[i].Exit? ==>
            0 < i < |trace| - 1 && trace[i - 1] == Enter(trace[i].state) && trace[i + 1].Enter?)
  {
    RunInTurn(m, a, calls);
    RunTravels(m, a, calls);
    RunStaysDeclared(m, a, calls);
    var b := Run(m, a, calls);
    EntriesAndExits(b.trace, b.current.value, i);
  }

  /** A handler that sets another agent state and asks for no transition takes the stored state apart. */
  lemma Misstored(m: Machine, a: Agent, event: string, other: string)
    requires Consistent(m, a) && a.current.Some? && other != a.current.value
    requires event in m.events && (a.current.value, event) in m.handlers && event != ENTER && event != EXIT
    ensures var b := Routed(m, a, Call(event, Effect([(AgentState, Some(other))], None)));
      b.current == a.current && Get(b.stored, AgentState) == Some(other)
  {
    var call := Call(event, Effect([(AgentState, Some(other))], None));
    CallAgrees(m, a, call);
    assert call.effect.sets[..0] == [];
    assert Ran(a, call.effect.sets) == SetValue(Ran(a, []), AgentState, Some(other));
  }

  // ------------------------------------------------- the agent object

  class ResourceAgent {
    const fsm: InstrumentFSM
    const process: StatefulProcess
    /** The enter and exit handlers fired since the machine was started. */
    ghost var trace: seq<Fired>

    ghost function Config(): Machine
      reads fsm
    {
      Machine(fsm.states, fsm.events, fsm.stateHandlers)
    }

    ghost function View(): Agent
      reads this, fsm, process, process.repository
    {
      Agent(fsm.currentState, fsm.previousState, process.procState, process.procStateChanged,
            StoredFor(process.repository.docs, process.id), trace)
    }

    ghost predicate Valid()
      reads this, fsm, process, process.repository
    {
      Constructed(Config()) && process.Valid() && Consistent(Config(), View())
    }

    /**
     * Constructs the state machine with the common handlers in every state, and starts the process with its
     * stored vector.
     */
    constructor (states: set<string>, events: set<string>, id: string, repository: StateRepository)
      requires ENTER in events && EXIT in events
      ensures Valid() && fresh(fsm) && fresh(process) && fsm.states == states && fsm.events == events
      ensures process.id == id && process.repository == repository
      ensures forall s | s in states :: fsm.stateHandlers[(s, "RESOURCE_AGENT_EVENT_ENTER")] == CommonStateEnter
      ensures forall s | s in states :: fsm.stateHandlers[(s, "RESOURCE_AGENT_EVENT_EXIT")] == CommonStateExit
      ensures forall k | k in fsm.stateHandlers :: k.0 in states && (k.1 == ENTER || k.1 == EXIT)
      ensures var stored := StoredFor(repository.docs, id); View() == Agent(None, None, stored, false, stored, [])
    {
      fsm := new InstrumentFSM(states, events);
      process := new StatefulProcess(id, repository);
      trace := [];
      new;
      AddCommonHandlers();
    }

    method AddCommonHandlers()
      requires ENTER in fsm.events && EXIT in fsm.events && fsm.stateHandlers == map[]
      modifies fsm`stateHandlers
      ensures Constructed(Config())
      ensures forall k | k in fsm.stateHandlers :: k.1 == ENTER || k.1 == EXIT
    {
      var todo := fsm.states;
      while todo != {}
        invariant todo <= fsm.states
        invariant forall k :: k in fsm.stateHandlers <==> k.0 in fsm.states - todo && (k.1 == ENTER || k.1 == EXIT)
        invariant forall s | s in fsm.states - todo :: fsm.stateHandlers[(s, ENTER)] == CommonStateEnter
        invariant forall s | s in fsm.states - todo :: fsm.stateHandlers[(s, EXIT)] == CommonStateExit
        decreases todo
      {
        var s :| s in todo;
        var added := fsm.AddHandler(s, ENTER, CommonStateEnter);
        added := fsm.AddHandler(s, EXIT, CommonStateExit);
        todo := todo - {s};
      }
    }

    method EnterState()
      requires process.Valid() && fsm.currentState.Some?
      modifies this`trace, process, process.repository
      ensures process.Valid() && View() == Entered(old(View()), fsm.currentState.value)
    {
      process.SetState(AgentState, fsm.currentState);
      process.FlushState();
      trace := trace + [Enter(fsm.currentState.value)];
    }

    method ExitState()
      requires process.Valid() && fsm.currentState.Some?
      modifies this`trace, process
      ensures process.Valid() && View() == Exited(old(View()), fsm.currentState.value)
    {
      process.SetState(PrevAgentState, fsm.currentState);
      trace := trace + [Exit(fsm.currentState.value)];
    }

    /** Starts the machine in a declared state and enters it: from then on all is in agreement. */
    method Start(state: string) returns (started: bool)
      requires Valid()
      modifies this, fsm, process, process.repository
      ensures Valid() && Config() == old(Config()) && started == (state in fsm.states)
      ensures View() == if started then Started(old(View()), state) else old(View())
      ensures started ==> fsm.currentState == Some(state) && trace == [Enter(state)] && !process.procStateChanged
      ensures started ==> Agrees(View()) && InTurn(View())
    {
      if state !in fsm.states { return false; }
      fsm.currentState := Some(state);
      trace := [];
      EnterState();
      return true;
    }

    /** A command handler sets values. */
    method RunHandler(sets: seq<(string, Option<string>)>)
      requires process.Valid()
      modifies process
      ensures process.Valid() && View() == Ran(old(View()), sets)
    {
      for i := 0 to |sets|
        invariant process.Valid() && View() == Ran(old(View()), sets[..i])
      {
        assert sets[..i + 1][..i] == sets[..i];
        process.SetState(sets[i].0, sets[i].1);
      }
      assert sets[..|sets|] == sets;
    }

    /** An event, with what its handler does if it is a command. */
    method OnEvent(event: string, effect: Effect) returns (r: Outcome)
      requires Valid()
      modifies this, fsm, process, process.repository
      ensures Valid() && Config() == old(Config())
      ensures (View(), r) == Handle(Config(), old(View()), Call(event, effect))
      ensures StoredAgrees(View()) <==>
        old(StoredAgrees(View())) || (r == TypeError && event == ENTER)
        || (r == Handled && Transits(Config(), Call(event, effect)))
      ensures old(InTurn(View())) ==> (InTurn(View()) <==> r != TypeError)
    {
      EventStores(Config(), View(), Call(event, effect));
      if InTurn(View()) { CallInTurn(Config(), View(), Call(event, effect)); }
      if event !in fsm.events { return CommandUnknown; }
      if fsm.currentState.None? || (fsm.currentState.value, event) !in fsm.stateHandlers { return StateError; }
      if event == ENTER {
        EnterState();
        return TypeError;
      }
      if event == EXIT {
        ExitState();
        return TypeError;
      }
      RunCommand(Call(event, effect));
      return Handled;
    }

    /** The handler of a command, and the transition it asks for. */
    method RunCommand(call: Call)
      requires process.Valid() && fsm.currentState.Some?
      modifies this`trace, fsm`currentState, fsm`previousState, process, process.repository
      ensures process.Valid() && View() == Commanded(Config(), old(View()), call)
    {
      RanKeepsState(View(), call.effect.sets);
      RunHandler(call.effect.sets);
      if call.effect.next.Some? && call.effect.next.value in fsm.states {
        OnTransition(call.effect.next.value);
      }
    }

    /** Exits the current state and enters the next. */
    method OnTransition(next: string)
      requires process.Valid() && fsm.currentState.Some?
      modifies this`trace, fsm`currentState, fsm`previousState, process, process.repository
      ensures process.Valid() && View() == Transited(old(View()), old(fsm.currentState).value, next)
    {
      ExitState();
      fsm.previousState := fsm.currentState;
      fsm.currentState := Some(next);
      EnterState();
    }

    /** An event by a routed call: unless it raises, a vector that was changed is stored after it. */
    method RoutedEvent(event: string, effect: Effect) returns (r: Outcome)
      requires Valid()
      modifies this, fsm, process, process.repository
      ensures Valid() && Config() == old(Config())
      ensures View() == Routed(Config(), old(View()), Call(event, effect))
      ensures r == Handle(Config(), old(View()), Call(event, effect)).1
      ensures old(Agrees(View())) ==> (Agrees(View()) <==> KeepsState(Config(), old(View()), Call(event, effect)))
    {
      CallAgrees(Config(), View(), Call(event, effect));
      r := OnEvent(event, effect);
      if r == Handled && process.procStateChanged { process.FlushState(); }
    }
  }
}
