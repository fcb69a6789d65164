/** State vectors of processes and the repository that keeps them (pyon/ion/state.py, pyon/container/procs.py). */
module ProcessStates {
  import opened Wrappers

  type Vector = map<string, Option<string>>

  /** A stored state vector with its revision; and the object a process holds to write it again. */
  datatype Stored = Stored(state: Vector, rev: nat)
  datatype StateObj = StateObj(id: string, rev: nat)

  type Docs = map<string, Stored>

  /** What is stored for a process: nothing counts as the empty vector, which is what it starts with. */
  function StoredFor(docs: Docs, id: string): Vector { if id in docs then docs[id].state else map[] }

  /** None if the revision is not the one stored, as for a document that does not exist. */
  function Update(docs: Docs, obj: StateObj, state: Vector): Option<Docs> {
    if obj.id in docs && docs[obj.id].rev == obj.rev then Some(docs[obj.id := Stored(state, obj.rev + 1)]) else None
  }

  function Read(docs: Docs, key: string): Option<StateObj> {
    if key in docs then Some(StateObj(key, docs[key].rev)) else None
  }

  /** Where a value is got that may be missing. */
  function Get(v: Vector, key: string): Option<string> { if key in v then v[key] else None }

  /** A value that is there already is not set again. */
  function SetIn(v: Vector, key: string, value: Option<string>): Vector {
    if Get(v, key) == value then v else v[key := value]
  }

  class StateRepository {
    var docs: Docs

    constructor ()
      ensures docs == map[]
    {
      docs := map[];
    }

    /**
     * Stores a state vector whatever the state object given: up to date, out of date or none. One document
     * changes, and the object returned is up to date. It is the one of the key, unless the object given is
     * up to date and belongs to another key.
     */
    method PutState(key: string, state: Vector, obj: Option<StateObj>) returns (r: StateObj)
      modifies this
      ensures r.id == if obj.Some? && obj.value.id in old(docs) && old(docs)[obj.value.id].rev == obj.value.rev
                      then obj.value.id else key
      ensures StoredFor(docs, r.id) == state && Read(docs, r.id) == Some(r)
      ensures docs.Keys == old(docs.Keys) + {r.id}
      ensures forall k | k in old(docs) && k != r.id :: docs[k] == old(docs)[k]
      ensures r.rev == 1 + if r.id in old(docs) then old(docs)[r.id].rev else 0
    {
      if obj.Some? {
        var updated := Update(docs, obj.value, state);
        if updated.Some? {
          docs := updated.value;
          return StateObj(obj.value.id, obj.value.rev + 1);
        }
      }
      var found := Read(docs, key);
      if found.Some? {
        docs := Update(docs, found.value, state).value;
        r := StateObj(key, found.value.rev + 1);
      } else {
        docs := docs[key := Stored(state, 1)];
        r := StateObj(key, 1);
      }
    }

    method GetState(key: string) returns (r: Option<(Vector, StateObj)>)
      ensures r.Some? <==> key in docs
      ensures r.Some? ==> r.value.0 == StoredFor(docs, key) && Read(docs, key) == Some(r.value.1)
    {
      var found := Read(docs, key);
      if found.None? { return None; }
      return Some((docs[key].state, found.value));
    }
  }

  class StatefulProcess {
    const id: string
    const repository: StateRepository
    var procState: Vector
    var procStateObj: Option<StateObj>
    var procStateChanged: bool

    /** A vector not marked as changed is the one stored. */
    ghost predicate Valid()
      reads this, repository
    {
      && (procStateObj.Some? ==> procStateObj.value.id == id)
      && (!procStateChanged ==> procState == StoredFor(repository.docs, id))
    }

    /** A process starts, or starts again, with what is stored for it. */
    constructor (id: string, repository: StateRepository)
      ensures Valid() && !procStateChanged && this.id == id && this.repository == repository
      ensures procState == StoredFor(repository.docs, id)
    {
      this.id, this.repository := id, repository;
      procState, procStateObj, procStateChanged := map[], None, false;
      new;
      LoadState();
    }

    /** Brings back the stored vector, if there is one. */
    method LoadState()
      requires (procStateObj.Some? ==> procStateObj.value.id == id)
      modifies this
      ensures (if id in repository.docs then procState == repository.docs[id].state && !procStateChanged
               else procState == old(procState) && procStateChanged == old(procStateChanged))
      ensures (procStateObj.Some? ==> procStateObj.value.id == id)
    {
      var r := repository.GetState(id);
      if r.Some? {
        procState := r.value.0;
        procStateObj := Some(r.value.1);
        procStateChanged := false;
      }
    }

    /** Sets a value, and marks the vector as changed only if the value does change. */
    method SetState(key: string, value: Option<string>)
      requires Valid()
      modifies this
      ensures Valid() && procStateObj == old(procStateObj)
      ensures procState == SetIn(old(procState), key, value)
      ensures procStateChanged == (old(procStateChanged) || Get(old(procState), key) != value)
    {
      var oldState := Get(procState, key);
      if oldState != value {
        procState := procState[key := value];
        procStateChanged := true;
      }
    }

    method FlushState()
      requires Valid()
      modifies this, repository
      ensures Valid() && !procStateChanged && procState == old(procState)
      ensures StoredFor(repository.docs, id) == procState && procStateObj == Read(repository.docs, id)
      ensures forall k | k != id :: StoredFor(repository.docs, k) == StoredFor(old(repository.docs), k)
    {
      var obj := repository.PutState(id, procState, procStateObj);
      procStateObj := Some(obj);
      procStateChanged := false;
    }

    /** A vector not marked as changed is recovered by loading, which changes nothing then. */
    method Reload()
      requires Valid() && !procStateChanged
      modifies this
      ensures Valid() && !procStateChanged && procState == old(procState)
    {
      LoadState();
    }
  }
}
