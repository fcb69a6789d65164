/** Resource life cycle workflows and their restriction to fewer states (pyon/ion/resource.py). */
module Workflows {
  import opened Wrappers

  type Transitions = map<(string, string), string>

  datatype Workflow = Workflow(
    states: set<string>, transitions: Transitions, initial: Option<string>,
    availStates: set<string>, availTransitions: Transitions, initialAvail: Option<string>)

  /** Every transition starts and ends in a state of the workflow. */
  predicate Closed(w: Workflow) {
    && (forall k | k in w.transitions :: k.0 in w.states && w.transitions[k] in w.states)
    && (forall k | k in w.availTransitions :: k.0 in w.availStates && w.availTransitions[k] in w.availStates)
  }

  predicate SubMachine(w: Workflow, base: Workflow) {
    && w.states <= base.states
    && (forall k | k in w.transitions :: k in base.transitions && w.transitions[k] == base.transitions[k])
    && w.availStates == base.availStates && w.availTransitions == base.availTransitions
  }

  /** How a definition restricts another: the states removed and the initial states, which are not inherited. */
  datatype Restriction = Restriction(remove: set<string>, initial: Option<string>, initialAvail: Option<string>)

  predicate Survives(transitions: Transitions, remove: set<string>, k: (string, string)) {
    k in transitions && k.0 !in remove && transitions[k] !in remove
  }

  function Restrict(w: Workflow, r: Restriction): Workflow {
    w.(states := w.states - r.remove,
       transitions := map k | k in w.transitions && Survives(w.transitions, r.remove, k) :: w.transitions[k],
       initial := r.initial, initialAvail := r.initialAvail)
  }

  function Chain(w: Workflow, rs: seq<Restriction>): Workflow {
    if rs == [] then w else Restrict(Chain(w, rs[..|rs| - 1]), rs[|rs| - 1])
  }

  function Removed(rs: seq<Restriction>): set<string> {
    if rs == [] then {} else Removed(rs[..|rs| - 1]) + rs[|rs| - 1].remove
  }

  /** Any chain of restrictions of a closed workflow is closed and a sub-machine of it. */
  lemma {:induction false} ChainStaysClosed(w: Workflow, rs: seq<Restriction>)
    requires Closed(w)
    ensures Closed(Chain(w, rs)) && SubMachine(Chain(w, rs), w)
    decreases |rs|
  {
    if rs != [] { ChainStaysClosed(w, rs[..|rs| - 1]); }
  }

  /** A chain of restrictions is the one restriction that removes all their states. */
  lemma {:induction false} ChainIsOne(w: Workflow, rs: seq<Restriction>)
    requires rs != []
    ensures Chain(w, rs) == Restrict(w, rs[|rs| - 1].(remove := Removed(rs)))
    decreases |rs|
  {
    var front, last := rs[..|rs| - 1], rs[|rs| - 1];
    if front == [] {
      assert Chain(w, front) == w && Removed(rs) == last.remove;
    } else {
      ChainIsOne(w, front);
      var once := Restrict(w, last.(remove := Removed(rs)));
      assert Chain(w, rs).transitions == once.transitions;
      assert Chain(w, rs).states == once.states;
    }
  }

  /** The states visited by following events from a state, if each has a transition. */
  function Walk(transitions: Transitions, state: string, events: seq<string>): Option<seq<string>>
    decreases |events|
  {
    if events == [] then Some([state])
    else if (state, events[0]) !in transitions then None
    else match Walk(transitions, transitions[(state, events[0])], events[1..])
      case None => None
      case Some(visited) => Some([state] + visited)
  }

  /** The walks of the restricted workflow are the walks of the base that never visit a removed state. */
  lemma {:induction false} RestrictedWalks(w: Workflow, r: Restriction, state: string, events: seq<string>,
                                           visited: seq<string>)
    requires state !in r.remove
    ensures Walk(Restrict(w, r).transitions, state, events) == Some(visited)
      <==> Walk(w.transitions, state, events) == Some(visited) && forall s | s in visited :: s !in r.remove
    decreases |events|
  {
    var restricted := Restrict(w, r).transitions;
    if events != [] && (state, events[0]) in w.transitions {
      var next := w.transitions[(state, events[0])];
      if next !in r.remove {
        if visited != [] {
          RestrictedWalks(w, r, next, events[1..], visited[1..]);
          assert forall v: seq<string> :: [state] + v == visited ==> v == visited[1..];
          assert visited[0] == state ==> [state] + visited[1..] == visited;
          assert forall s | s in visited :: s == visited[0] || s in visited[1..];
        }
      } else {
        WalkStarts(w.transitions, next, events[1..]);
      }
    }
  }

  lemma WalkStarts(transitions: Transitions, state: string, events: seq<string>)
    ensures Walk(transitions, state, events).Some? ==>
      Walk(transitions, state, events).value != [] && Walk(transitions, state, events).value[0] == state
  {
  }

  /** The transitions out of a state, by event. */
  function Successors(transitions: Transitions, state: string): map<string, string> {
    map k | k in transitions && k.0 == state :: k.1 := transitions[k]
  }

  /** The states with a transition into a state. */
  function Sources(transitions: Transitions, state: string): set<string> {
    set k | k in transitions && transitions[k] == state :: k.0
  }

  /** One state is a successor of another exactly when that is a predecessor of it. */
  lemma SuccessorsAndPredecessors(transitions: Transitions, a: string, b: string)
    ensures b in Successors(transitions, a).Values <==> a in Sources(transitions, b)
  {
    if b in Successors(transitions, a).Values {
      var e :| e in Successors(transitions, a) && Successors(transitions, a)[e] == b;
      assert (a, e) in transitions;
    }
    if a in Sources(transitions, b) {
      var k :| k in transitions && transitions[k] == b && k.0 == a;
      assert Successors(transitions, a)[k.1] == b;
    }
  }

  /** A workflow object; cloning it with restrictions leaves it alone. */
  class ResourceLifeCycleSM {
    var lcstateStates: set<string>
    var lcstateTransitions: Transitions
    var initialState: Option<string>
    var availabilityStates: set<string>
    var availabilityTransitions: Transitions
    var initialAvailability: Option<string>

    ghost function View(): Workflow
      reads this
    {
      Workflow(lcstateStates, lcstateTransitions, initialState, availabilityStates, availabilityTransitions,
          initialAvailability)
    }

    constructor (w: Workflow)
      ensures View() == w
    {
      lcstateStates, lcstateTransitions, initialState := w.states, w.transitions, w.initial;
      availabilityStates, availabilityTransitions, initialAvailability := w.availStates, w.availTransitions,
        w.initialAvail;
    }

    method CloneWithRestrictions(r: Restriction) returns (clone: ResourceLifeCycleSM)
      ensures fresh(clone) && clone.View() == Restrict(View(), r)
    {
      clone := new ResourceLifeCycleSM(Workflow(lcstateStates, lcstateTransitions, r.initial,
        availabilityStates, availabilityTransitions, r.initialAvail));
      clone.ApplyRestrictions(r.remove);
    }

    method ApplyRestrictions(remove: set<string>)
      modifies this
      ensures View() == Restrict(old(View()), Restriction(remove, initialState, initialAvailability))
      ensures initialState == old(initialState) && initialAvailability == old(initialAvailability)
    {
      if remove != {} {
        var transNew := lcstateTransitions;
        var todo := lcstateTransitions.Keys;
        while todo != {}
          invariant todo <= lcstateTransitions.Keys
          invariant forall k :: k in transNew <==>
            k in lcstateTransitions && (k in todo || Survives(lcstateTransitions, remove, k))
          invariant forall k | k in transNew :: transNew[k] == lcstateTransitions[k]
          decreases todo
        {
          var k :| k in todo;
          if k.0 in remove || lcstateTransitions[k] in remove {
            transNew := transNew - {k};
          }
          todo := todo - {k};
        }
        lcstateTransitions := transNew;
        lcstateStates := lcstateStates - remove;
      }
    }

    /** Where each event leads from a state. */
    method GetLcstateSuccessors(state: string) returns (next: map<string, string>)
      ensures next == Successors(lcstateTransitions, state)
      ensures Closed(View()) ==> next.Values <= lcstateStates
    {
      next := map[];
      var todo := lcstateTransitions.Keys;
      while todo != {}
        invariant todo <= lcstateTransitions.Keys
        invariant forall e :: e in next <==> (state, e) in lcstateTransitions && (state, e) !in todo
        invariant forall e | e in next :: next[e] == lcstateTransitions[(state, e)]
        decreases todo
      {
        var k :| k in todo;
        if k.0 == state { next := next[k.1 := lcstateTransitions[k]]; }
        todo := todo - {k};
      }
      assert next == Successors(lcstateTransitions, state) by {
        assert forall e: string :: (state, e).0 == state && (state, e).1 == e;
      }
    }

    /** For each state with a transition into a state, an event that leads there. */
    method GetLcstatePredecessors(state: string) returns (from: map<string, string>)
      ensures from.Keys == Sources(lcstateTransitions, state)
      ensures forall s | s in from :: (s, from[s]) in lcstateTransitions && lcstateTransitions[(s, from[s])] == state
      ensures Closed(View()) ==> from.Keys <= lcstateStates
    {
      from := map[];
      var todo := lcstateTransitions.Keys;
      while todo != {}
        invariant todo <= lcstateTransitions.Keys
        invariant forall k | k in lcstateTransitions && lcstateTransitions[k] == state :: k in todo || k.0 in from
        invariant forall s | s in from ::
          (s, from[s]) in lcstateTransitions && lcstateTransitions[(s, from[s])] == state
        decreases todo
      {
        var k :| k in todo;
        if lcstateTransitions[k] == state { from := from[k.0 := k.1]; }
        todo := todo - {k};
      }
    }
  }
}
