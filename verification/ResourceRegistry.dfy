/** Resources, their associations and their life cycle (pyon/ion/resregistry.py). */
module ResourceRegistry {
  import opened Wrappers
  import opened Workflows

  datatype Predicate = Predicate(domain: set<string>, range: set<string>)

  /** The resource types, the types extended from each type, the predicates, and the workflows by type. */
  datatype Config = Config(
    resourceTypes: set<string>, extended: map<string, set<string>>, preds: map<string, Predicate>,
    workflows: map<string, Workflow>)

  datatype Resource = Resource(typ: string, lcstate: Option<string>, availability: Option<string>, rev: nat,
      content: string)

  /** s is associated with o by p; st and ot are their types when it was made. Retired means deleted softly. */
  datatype Assoc = Assoc(s: string, st: string, p: string, o: string, ot: string, retired: bool)

  datatype State = State(resources: map<string, Resource>, assocs: map<string, Assoc>)

  datatype Outcome = Done | BadRequest | NotFound | Conflict | TypeError

  const DEPLOYED: Option<string> := Some("DEPLOYED")
  const RETIRED: Option<string> := Some("RETIRED")
  const DELETED: Option<string> := Some("DELETED")
  const AVAILABLE: Option<string> := Some("AVAILABLE")
  const RETIRE := "retire"
  const DELETE := "delete"
  const HasOwner := "hasOwner"
  const ActorIdentity := "ActorIdentity"

  // ------------------------------------------------- the operations

  predicate Allowed(c: Config, typs: set<string>, t: string) {
    t in typs || exists b | b in typs && b in c.extended :: t in c.extended[b]
  }

  predicate Between(a: Assoc, s: string, p: string, o: string) { !a.retired && a.s == s && a.p == p && a.o == o }

  /** A subject or object: an id, or a resource object with its id ("" if it has none) and type. */
  datatype Endpoint = ById(id: string) | Given(id: string, typ: string)

  /** Only an id is looked up; an object given is taken as it is. */
  function Resolve(st: State, e: Endpoint): (Outcome, string) {
    match e
    case ById(id) => if id in st.resources then (Done, st.resources[id].typ) else (NotFound, "")
    case Given(id, typ) => if id == "" then (BadRequest, "") else (Done, typ)
  }

  function Associate(c: Config, st: State, s: Endpoint, p: string, o: Endpoint, id: string): (State, Outcome) {
    if s == ById("") || p == "" || o == ById("") then (st, BadRequest)
    else
      var (foundS, typeS), (foundO, typeO) := Resolve(st, s), Resolve(st, o);
      if foundS != Done then (st, foundS)
      else if foundO != Done then (st, foundO)
      else if p !in c.preds then (st, TypeError)
      else if !Allowed(c, c.preds[p].domain, typeS) then (st, BadRequest)
      else if !Allowed(c, c.preds[p].range, typeO) then (st, BadRequest)
      else if exists k | k in st.assocs :: Between(st.assocs[k], s.id, p, o.id) then (st, BadRequest)
      else (st.(assocs := st.assocs[id := Assoc(s.id, typeS, p, o.id, typeO, false)]), Done)
  }

  /** A resource starts in the initial states of its workflow, or deployed and available if it has none. */
  function Created(c: Config, typ: string, content: string): Resource {
    if typ in c.workflows
    then Resource(typ, c.workflows[typ].initial, c.workflows[typ].initialAvail, 1, content)
    else Resource(typ, DEPLOYED, AVAILABLE, 1, content)
  }

  /** The owner is associated after the resource is stored, which stays stored if that fails. */
  function Create(c: Config, st: State, typ: string, content: string, id: string, actor: string, assocId: string)
    : (State, Outcome)
  {
    if typ !in c.resourceTypes then (st, BadRequest)
    else if id in st.resources then (st, BadRequest)
    else
      var stored := st.(resources := st.resources[id := Created(c, typ, content)]);
      if actor == "" || actor
        == "anonymous" then (stored, Done) else Associate(c, stored, ById(id), HasOwner, ById(actor), assocId)
  }

  /** The life cycle and availability of the object given are ignored. */
  function Update(st: State, id: string, obj: Resource): (State, Outcome) {
    if id == "" then (st, BadRequest)
    else if id !in st.resources then (st, NotFound)
    else if obj.rev != st.resources[id].rev then (st, Conflict)
    else
      var was := st.resources[id];
      var now := obj.(lcstate := was.lcstate, availability := was.availability, rev := was.rev + 1);
      (st.(resources := st.resources[id := now]), Done)
  }

  predicate Touches(a: Assoc, id: string) { !a.retired && (a.s == id || a.o == id) }

  predicate Owns(a: Assoc, id: string) { !a.retired && a.s == id && a.p == HasOwner && a.ot == ActorIdentity }

  /** The associations deleted as those of the owners: the owner has to be stored. */
  predicate OwnedBy(st: State, a: Assoc, id: string) { Owns(a, id) && a.o in st.resources }

  /** Deletes a resource with all associations that are not retired, or with those to its owners only. */
  function Delete(st: State, id: string, delAssociations: bool): (State, Outcome) {
    if id == "" then (st, BadRequest)
    else if id !in st.resources then (st, NotFound)
    else
      var left := map k | k in st.assocs
        && !(if delAssociations then Touches(st.assocs[k], id) else OwnedBy(st, st.assocs[k], id))
        :: st.assocs[k];
      (State(st.resources - {id}, left), Done)
  }

  function DeleteAssociation(st: State, assocId: string): (State, Outcome) {
    if assocId !in st.assocs then (st, NotFound) else (st.(assocs := st.assocs - {assocId}), Done)
  }

  /** Deletes a resource softly: its life cycle ends in DELETED and its associations are retired. */
  function LcsDelete(st: State, id: string): (State, Outcome) {
    if id == "" then (st, BadRequest)
    else if id !in st.resources then (st, NotFound)
    else if st.resources[id].lcstate == DELETED then (st, BadRequest)
    else
      var was := st.resources[id];
      (State(st.resources[id := was.(lcstate := DELETED, rev := was.rev + 1)],
             map k | k in st.assocs ::
               if Touches(st.assocs[k], id) then st.assocs[k].(retired := true) else st.assocs[k]), Done)
  }

  function Successor(transitions: Transitions, state: Option<string>, event: string): Option<string> {
    if state.Some? && (state.value, event) in transitions then Some(transitions[(state.value, event)]) else None
  }

  function Transition(c: Config, st: State, id: string, event: string): (State, Outcome) {
    if event == DELETE then LcsDelete(st, id)
    else if id == "" then (st, BadRequest)
    else if id !in st.resources then (st, NotFound)
    else
      var was := st.resources[id];
      if event == RETIRE then
        if was.lcstate == RETIRED || was.lcstate == DELETED then (st, BadRequest)
        else (Store(st, id, was.(lcstate := RETIRED)), Done)
      else if was.typ !in c.workflows then (st, BadRequest)
      else
        var w := c.workflows[was.typ];
        var lc, av := Successor(w.transitions, was.lcstate, event),
          Successor(w.availTransitions, was.availability, event);
        if lc.None? && av.None? then (st, BadRequest)
        else (Store(st, id, was.(lcstate := if lc.Some? then lc else was.lcstate,
                                 availability := if av.Some? then av else was.availability)), Done)
  }

  function Store(st: State, id: string, r: Resource): State {
    st.(resources := st.resources[id := r.(rev := r.rev + 1)])
  }

  datatype Step =
    | DoCreate(typ: string, content: string, id: string, actor: string, assocId: string)
    | DoUpdate(id: string, obj: Resource)
    | DoDelete(id: string, delAssociations: bool)
    | DoAssociate(s: Endpoint, p: string, o: Endpoint, assocId: string)
    | DoDeleteAssociation(assocId: string)
    | DoTransition(id: string, event: string)

  function Next(c: Config, st: State, step: Step): (State, Outcome) {
    match step
    case DoCreate(typ, content, id, actor, assocId) => Create(c, st, typ, content, id, actor, assocId)
    case DoUpdate(id, obj) => Update(st, id, obj)
    case DoDelete(id, del) => Delete(st, id, del)
    case DoAssociate(s, p, o, assocId) => Associate(c, st, s, p, o, assocId)
    case DoDeleteAssociation(assocId) => DeleteAssociation(st, assocId)
    case DoTransition(id, event) => Transition(c, st, id, event)
  }

  /** Ids of new associations are not in use. */
  predicate FreshIds(st: State, step: Step) {
    (step.DoCreate? || step.DoAssociate?) ==> step.assocId !in st.assocs
  }

  // ------------------------------------------------- what the operations do

  /** The type an end of an association counts as: the stored one for an id, that of the object otherwise. */
  function TypeOfEnd(st: State, e: Endpoint): string {
    if e.Given? then e.typ else if e.id in st.resources then st.resources[e.id].typ else ""
  }

  /** An end is given by the id of a stored resource, or as an object with an id. */
  predicate EndFound(st: State, e: Endpoint) { e.id != "" && (e.ById? ==> e.id in st.resources) }

  /** The type is one of some types, or extended from one. */
  ghost predicate IsOrExtends(c: Config, t: string, typs: set<string>) {
    exists b :: b in typs && (b == t || (b in c.extended && t in c.extended[b]))
  }

  /**
   * An association is made exactly if both ends are found, the predicate is known and allows their types, and
   * they are not associated so already; then it and nothing else is new.
   */
  lemma AssociateDoes(c: Config, st: State, s: Endpoint, p: string, o: Endpoint, id: string)
    ensures var (t, r) := Associate(c, st, s, p, o, id);
      var typeS, typeO := TypeOfEnd(st, s), TypeOfEnd(st, o);
      && (r == Done <==>
            && p != "" && EndFound(st, s) && EndFound(st, o) && p in c.preds
            && IsOrExtends(c, typeS, c.preds[p].domain) && IsOrExtends(c, typeO, c.preds[p].range)
            && forall k | k in st.assocs && !st.assocs[k].retired ::
                 !(st.assocs[k].s == s.id && st.assocs[k].p == p && st.assocs[k].o == o.id))
      && t == (if r == Done then st.(assocs := st.assocs[id := Assoc(s.id, typeS, p, o.id, typeO, false)]) else st)
      && (r == NotFound <==>
            && p != "" && s != ById("") && o != ById("")
            && ((s.ById? && !EndFound(st, s)) || (EndFound(st, s) && o.ById? && !EndFound(st, o))))
      && (r == TypeError <==> p != "" && EndFound(st, s) && EndFound(st, o) && p !in c.preds)
  {
    if p in c.preds {
      assert Allowed(c, c.preds[p].domain, TypeOfEnd(st, s)) <==> IsOrExtends(c, TypeOfEnd(st, s), c.preds[p].domain);
      assert Allowed(c, c.preds[p].range, TypeOfEnd(st, o)) <==> IsOrExtends(c, TypeOfEnd(st, o), c.preds[p].range);
    }
    assert (exists k | k in st.assocs :: Between(st.assocs[k], s.id, p, o.id)) <==>
      exists k :: k in st.assocs && !st.assocs[k].retired
        && st.assocs[k].s == s.id && st.assocs[k].p == p && st.assocs[k].o == o.id;
  }

  /** A new resource has the content given and the initial states of its type, and then is associated with its owner. */
  lemma CreateDoes(c: Config, st: State, typ: string, content: string, id: string, actor: string, assocId: string)
    ensures var (t, r) := Create(c, st, typ, content, id, actor, assocId);
      if typ !in c.resourceTypes || id in st.resources then t == st && r == BadRequest
      else
        var states := if typ in c.workflows then (c.workflows[typ].initial, c.workflows[typ].initialAvail)
                      else (Some("DEPLOYED"), Some("AVAILABLE"));
        var stored := st.(resources := st.resources[id := Resource(typ, states.0, states.1, 1, content)]);
        if actor == "" || actor == "anonymous" then t == stored && r == Done
        else (t, r) == Associate(c, stored, ById(id), "hasOwner", ById(actor), assocId)
  {
  }

  /** An update that is not outdated stores the object given, with the states kept and a new revision. */
  lemma UpdateDoes(st: State, id: string, obj: Resource)
    ensures var (t, r) := Update(st, id, obj);
      && (r == Done <==> id != "" && id in st.resources && obj.rev == st.resources[id].rev)
      && (r == NotFound <==> id != "" && id !in st.resources)
      && (r == Conflict <==> id != "" && id in st.resources && obj.rev != st.resources[id].rev)
      && r != TypeError && (r != Done ==> t == st)
      && (r == Done ==>
            && t.assocs == st.assocs && t.resources.Keys == st.resources.Keys
            && (forall k | k in st.resources && k != id :: t.resources[k] == st.resources[k])
            && var was, now := st.resources[id], t.resources[id];
            && now.typ == obj.typ && now.content == obj.content && now.rev == was.rev + 1
            && now.lcstate == was.lcstate && now.availability == was.availability)
  {
  }

  /** A delete removes the resource, and of its associations all that are not retired or those to stored owners. */
  lemma DeleteDoes(st: State, id: string, del: bool)
    ensures var (t, r) := Delete(st, id, del);
      && (r == Done <==> id != "" && id in st.resources) && (r == NotFound <==> id != "" && id !in st.resources)
      && (r == BadRequest <==> id == "") && (r != Done ==> t == st)
      && (r == Done ==>
            && t.resources == st.resources - {id} && t.assocs.Keys <= st.assocs.Keys
            && forall k | k in st.assocs ::
                 var a := st.assocs[k];
                 && (k in t.assocs ==> t.assocs[k] == a)
                 && (k !in t.assocs <==>
                       && !a.retired
                       && if del then a.s == id || a.o == id
                          else a.s == id && a.p == "hasOwner" && a.ot == "ActorIdentity" && a.o in st.resources))
  {
  }

  lemma DeleteAssociationDoes(st: State, assocId: string)
    ensures var (t, r) := DeleteAssociation(st, assocId);
      && r == (if assocId in st.assocs then Done else NotFound)
      && t.resources == st.resources && assocId !in t.assocs
      && forall k | k != assocId ::
           (k in t.assocs <==> k in st.assocs) && (k in st.assocs ==> t.assocs[k] == st.assocs[k])
  {
  }

  /** A soft delete, once, takes a resource to DELETED and retires all its associations. */
  lemma LcsDeleteDoes(st: State, id: string)
    ensures var (t, r) := LcsDelete(st, id);
      && (r == Done <==> id != "" && id in st.resources && st.resources[id].lcstate != Some("DELETED"))
      && (r == NotFound <==> id != "" && id !in st.resources) && r != Conflict && r != TypeError
      && (r != Done ==> t == st)
      && (r == Done ==>
            && OnlyStates(st, t, id) && t.resources[id].lcstate == Some("DELETED")
            && t.resources[id].availability == st.resources[id].availability
            && t.assocs.Keys == st.assocs.Keys
            && forall k | k in st.assocs ::
                 var a := st.assocs[k];
                 t.assocs[k] == if a.s == id || a.o == id then a.(retired := true) else a)
  {
  }

  /** One resource has a new revision, and perhaps other states. */
  ghost predicate OnlyStates(st: State, t: State, id: string) {
    && id in st.resources && t.resources.Keys == st.resources.Keys
    && (forall k | k in st.resources && k != id :: t.resources[k] == st.resources[k])
    && var was, now := st.resources[id], t.resources[id];
    now.typ == was.typ && now.content == was.content && now.rev == was.rev + 1
  }

  /** What the event leads to from a state, and the state itself if it leads nowhere. */
  ghost predicate Moves(transitions: Transitions, was: Option<string>, event: string, now: Option<string>) {
    if was.Some? && (was.value, event) in transitions then now == Some(transitions[(was.value, event)]) else now == was
  }

  /** One of the two machines has a transition on the event. */
  predicate Handles(w: Workflow, was: Resource, event: string) {
    || (was.lcstate.Some? && (was.lcstate.value, event) in w.transitions)
    || (was.availability.Some? && (was.availability.value, event) in w.availTransitions)
  }

  /** An event other than a delete: retiring works from any other state; others move both machines, if either can. */
  lemma TransitionDoes(c: Config, st: State, id: string, event: string)
    requires event != "delete"
    ensures var (t, r) := Transition(c, st, id, event);
      && (r == NotFound <==> id != "" && id !in st.resources) && r != Conflict && r != TypeError
      && (r != Done ==> t == st) && t.assocs == st.assocs
      && (id == "" ==> r == BadRequest)
      && (id != "" && id in st.resources ==>
            var was := st.resources[id];
            && (r == Done ==> OnlyStates(st, t, id))
            && (if event == "retire" then
                  && (r == Done <==> was.lcstate != Some("RETIRED") && was.lcstate != Some("DELETED"))
                  && (r == Done ==>
                        && t.resources[id].lcstate == Some("RETIRED")
                        && t.resources[id].availability == was.availability)
                else
                  && (r == Done <==> was.typ in c.workflows && Handles(c.workflows[was.typ], was, event))
                  && (r == Done ==>
                        && Moves(c.workflows[was.typ].transitions, was.lcstate, event, t.resources[id].lcstate)
                        && Moves(c.workflows[was.typ].availTransitions, was.availability, event,
                                 t.resources[id].availability))))
  {
  }

  lemma DeleteEventDoes(c: Config, st: State, id: string)
    ensures Transition(c, st, id, "delete") == LcsDelete(st, id)
  {
  }

  // ------------------------------------------------- referential integrity

  /** The association joins existing resources, of the types it records, as its predicate allows. */
  ghost predicate Fits(c: Config, st: State, a: Assoc) {
    && a.s in st.resources && a.st == st.resources[a.s].typ
    && a.o in st.resources && a.ot == st.resources[a.o].typ
    && a.p in c.preds && Allowed(c, c.preds[a.p].domain, a.st) && Allowed(c, c.preds[a.p].range, a.ot)
  }

  /**
   * Every association that is not retired joins existing resources as its predicate allows, and no other does
   * the same.
   */
  ghost predicate Integrity(c: Config, st: State) {
    && (forall k | k in st.assocs && !st.assocs[k].retired :: Fits(c, st, st.assocs[k]))
    && (forall j, k | j in st.assocs && k in st.assocs && !st.assocs[j].retired
          && Between(st.assocs[k], st.assocs[j].s, st.assocs[j].p, st.assocs[j].o) :: j == k)
  }

  /** What is given is stored, and with the type it is given with. */
  predicate AsStored(st: State, e: Endpoint) {
    e.id in st.resources && (e.Given? ==> e.typ == st.resources[e.id].typ)
  }

  lemma NewFits(c: Config, st: State, s: Endpoint, p: string, o: Endpoint, id: string)
    requires Associate(c, st, s, p, o, id).1 == Done
    ensures var t := Associate(c, st, s, p, o, id).0;
      && t.resources == st.resources
      && t.assocs == st.assocs[id := Assoc(s.id, Resolve(st, s).1, p, o.id, Resolve(st, o).1, false)]
      && (Fits(c, t, t.assocs[id]) <==> AsStored(st, s) && AsStored(st, o))
  {
  }

  /** A new association keeps integrity exactly if both ends are as stored: always so where they are given by id. */
  lemma AssociateKeeps(c: Config, st: State, s: Endpoint, p: string, o: Endpoint, id: string)
    requires Integrity(c, st) && id !in st.assocs
    ensures Integrity(c, Associate(c, st, s, p, o, id).0)
      <==> Associate(c, st, s, p, o, id).1 != Done || (AsStored(st, s) && AsStored(st, o))
    ensures s.ById? && o.ById? && Associate(c, st, s, p, o, id).1 == Done ==> AsStored(st, s) && AsStored(st, o)
  {
    var t := Associate(c, st, s, p, o, id).0;
    assert forall k | k in st.assocs && !st.assocs[k].retired :: Fits(c, st, st.assocs[k]);
    if Associate(c, st, s, p, o, id).1 == Done {
      assert id in t.assocs && !t.assocs[id].retired;
      NewFits(c, st, s, p, o, id);
      forall k | k in st.assocs ensures t.assocs[k] == st.assocs[k] && !Between(st.assocs[k], s.id, p, o.id) {}
    }
  }

  lemma CreateKeeps(c: Config, st: State, typ: string, content: string, id: string, actor: string, assocId: string)
    requires Integrity(c, st) && assocId !in st.assocs
    ensures Integrity(c, Create(c, st, typ, content, id, actor, assocId).0)
  {
    var stored := st.(resources := st.resources[id := Created(c, typ, content)]);
    assert forall k | k in st.assocs && !st.assocs[k].retired :: Fits(c, st, st.assocs[k]);
    if id !in st.resources {
      assert Integrity(c, stored);
      AssociateKeeps(c, stored, ById(id), HasOwner, ById(actor), assocId);
    }
  }

  /** What deleting would leave behind: associations of the resource other than those to its owners. */
  ghost predicate LeavesBehind(st: State, id: string, delAssociations: bool) {
    !delAssociations && exists k :: k in st.assocs && Touches(st.assocs[k], id) && !Owns(st.assocs[k], id)
  }

  /** A delete keeps integrity exactly when it leaves no association of the resource behind. */
  lemma DeleteKeeps(c: Config, st: State, id: string, del: bool)
    requires Integrity(c, st) && id != "" && id in st.resources
    ensures Integrity(c, Delete(st, id, del).0) <==> !LeavesBehind(st, id, del)
  {
    var t := Delete(st, id, del).0;
    assert forall k | k in st.assocs && !st.assocs[k].retired :: Fits(c, st, st.assocs[k]);
    if LeavesBehind(st, id, del) {
      var k :| k in st.assocs && Touches(st.assocs[k], id) && !Owns(st.assocs[k], id);
      assert k in t.assocs && !Fits(c, t, t.assocs[k]);
    } else {
      forall k | k in t.assocs && !t.assocs[k].retired ensures Fits(c, t, t.assocs[k]) {
        assert t.assocs[k] == st.assocs[k] && !Touches(st.assocs[k], id);
      }
    }
  }

  lemma TransitionKeeps(c: Config, st: State, id: string, event: string)
    requires Integrity(c, st)
    ensures Integrity(c, Transition(c, st, id, event).0)
  {
    var t := Transition(c, st, id, event).0;
    assert t.resources.Keys == st.resources.Keys;
    forall k | k in t.assocs && !t.assocs[k].retired ensures Fits(c, t, t.assocs[k]) {
      assert t.assocs[k] == st.assocs[k] && Fits(c, st, st.assocs[k]);
    }
  }

  /** The resource would be of another type than its associations record. */
  ghost predicate Retypes(st: State, id: string, obj: Resource) {
    id in st.resources && obj.typ != st.resources[id].typ && exists k :: k in st.assocs && Touches(st.assocs[k], id)
  }

  /** An update keeps integrity exactly when it keeps the type or the resource has no associations. */
  lemma UpdateKeeps(c: Config, st: State, id: string, obj: Resource)
    requires Integrity(c, st)
    ensures Integrity(c, Update(st, id, obj).0) <==> Update(st, id, obj).1 != Done || !Retypes(st, id, obj)
  {
    var t := Update(st, id, obj).0;
    if Update(st, id, obj).1 == Done {
      forall k | k in st.assocs && !st.assocs[k].retired
        ensures Fits(c, t, st.assocs[k]) <==> obj.typ == st.resources[id].typ || !Touches(st.assocs[k], id)
      {
        assert Fits(c, st, st.assocs[k]);
      }
      if Retypes(st, id, obj) {
        var k :| k in st.assocs && Touches(st.assocs[k], id);
        assert !Fits(c, t, t.assocs[k]);
      }
    }
  }

  /**
   * If the step goes through: no association is left behind, no associated resource is given another type, and
   * what is given to associate is as stored.
   */
  ghost predicate CarefulStep(c: Config, st: State, step: Step) {
    Next(c, st, step).1 == Done ==>
      match step
      case DoDelete(id, del) => !LeavesBehind(st, id, del)
      case DoUpdate(id, obj) => !Retypes(st, id, obj)
      case DoAssociate(s, p, o, assocId) => AsStored(st, s) && AsStored(st, o)
      case _ => true
  }

  lemma StepKeepsIntegrity(c: Config, st: State, step: Step)
    requires Integrity(c, st) && FreshIds(st, step)
    ensures Integrity(c, Next(c, st, step).0) <==> CarefulStep(c, st, step)
  {
    match step
    case DoCreate(typ, content, id, actor, assocId) => CreateKeeps(c, st, typ, content, id, actor, assocId);
    case DoAssociate(s, p, o, assocId) => AssociateKeeps(c, st, s, p, o, assocId);
    case DoTransition(id, event) => TransitionKeeps(c, st, id, event);
    case DoDelete(id, del) => if id != "" && id in st.resources { DeleteKeeps(c, st, id, del); }
    case DoUpdate(id, obj) => UpdateKeeps(c, st, id, obj);
    case DoDeleteAssociation(assocId) =>
      var t := DeleteAssociation(st, assocId).0;
      forall k | k in t.assocs && !t.assocs[k].retired ensures Fits(c, t, t.assocs[k]) {
        assert t.assocs[k] == st.assocs[k] && Fits(c, st, st.assocs[k]);
      }
  }

  // ------------------------------------------------- runs

  function Run(c: Config, st: State, steps: seq<Step>): State
    decreases |steps|
  {
    if steps == [] then st else Run(c, Next(c, st, steps[0]).0, steps[1..])
  }

  /** The states that a run goes through. */
  function Moments(c: Config, st: State, steps: seq<Step>): (r: seq<State>)
    decreases |steps|
  {
    if steps == [] then [st] else [st] + Moments(c, Next(c, st, steps[0]).0, steps[1..])
  }

  lemma {:induction false} MomentsAre(c: Config, st: State, steps: seq<Step>, i: nat)
    requires i <= |steps|
    ensures |Moments(c, st, steps)| == |steps| + 1 && Moments(c, st, steps)[i] == Run(c, st, steps[..i])
    decreases |steps|
  {
    if steps != [] {
      var next := Next(c, st, steps[0]).0;
      MomentsAre(c, next, steps[1..], if i > 0 then i - 1 else 0);
      if i > 0 { assert steps[..i][1..] == steps[1..][..i - 1]; } else { assert steps[..i] == []; }
    }
  }

  /** A run goes through its start and then through what the rest goes through. */
  lemma MomentsFrom(c: Config, st: State, steps: seq<Step>, t: State)
    ensures t in Moments(c, st, steps)
      <==> t == st || (steps != [] && t in Moments(c, Next(c, st, steps[0]).0, steps[1..]))
  {
  }

  /** Ids of new associations are not in use at any moment. */
  predicate AllFresh(c: Config, st: State, steps: seq<Step>)
    decreases |steps|
  {
    steps != [] ==> FreshIds(st, steps[0]) && AllFresh(c, Next(c, st, steps[0]).0, steps[1..])
  }

  ghost predicate Careful(c: Config, st: State, steps: seq<Step>)
    decreases |steps|
  {
    steps != [] ==> CarefulStep(c, st, steps[0]) && Careful(c, Next(c, st, steps[0]).0, steps[1..])
  }

  /** There is integrity at every moment of a run exactly if every step is careful. */
  lemma {:induction false} RunKeepsIntegrity(c: Config, st: State, steps: seq<Step>)
    requires Integrity(c, st) && AllFresh(c, st, steps)
    ensures (forall t | t in Moments(c, st, steps) :: Integrity(c, t)) <==> Careful(c, st, steps)
    decreases |steps|
  {
    if steps != [] {
      var next := Next(c, st, steps[0]).0;
      StepKeepsIntegrity(c, st, steps[0]);
      if Integrity(c, next) { RunKeepsIntegrity(c, next, steps[1..]); }
      MomentsFrom(c, next, steps[1..], next);
      forall t ensures t in Moments(c, st, steps) <==> t == st || t in Moments(c, next, steps[1..]) {
        MomentsFrom(c, st, steps, t);
      }
    }
  }

  /** In particular with ends given by id, types kept, and associations deleted along with their resources. */
  lemma {:induction false} DeletingAllIsCareful(c: Config, st: State, steps: seq<Step>)
    requires forall i | 0 <= i < |steps| && steps[i].DoDelete? :: steps[i].delAssociations
    requires forall i | 0 <= i < |steps| && steps[i].DoAssociate? :: steps[i].s.ById? && steps[i].o.ById?
    requires KeepsTypes(c, st, steps)
    ensures Careful(c, st, steps)
    decreases |steps|
  {
    if steps != [] {
      DeletingAllIsCareful(c, Next(c, st, steps[0]).0, steps[1..]);
    }
  }

  // ------------------------------------------------- the life cycle

  /** Every workflow is closed and starts in states of its own. */
  ghost predicate WellDefined(c: Config) {
    forall t | t in c.workflows :: var w := c.workflows[t];
      Closed(w) && w.initial.Some? && w.initial.value in w.states && w.initialAvail.Some?
        && w.initialAvail.value in w.availStates
  }

  ghost predicate LcstateIn(c: Config, r: Resource) {
    || r.lcstate == RETIRED || r.lcstate == DELETED
    || (if r.typ in c.workflows then r.lcstate.Some?
        && r.lcstate.value in c.workflows[r.typ].states else r.lcstate == DEPLOYED)
  }

  ghost predicate AvailabilityIn(c: Config, r: Resource) {
    if r.typ in c.workflows then r.availability.Some? && r.availability.value in c.workflows[r.typ].availStates
    else r.availability == AVAILABLE
  }

  ghost predicate InCycle(c: Config, st: State) {
    forall id | id in st.resources :: LcstateIn(c, st.resources[id]) && AvailabilityIn(c, st.resources[id])
  }

  /** The object given to an update has the type of the resource. */
  predicate KeepsType(st: State, step: Step) {
    step.DoUpdate? && step.id in st.resources ==> step.obj.typ == st.resources[step.id].typ
  }

  /** If an update goes through, the states of the resource, which stay, are states of the type it is given. */
  ghost predicate Admitted(c: Config, st: State, step: Step) {
    step.DoUpdate? && Update(st, step.id, step.obj).1 == Done ==>
      var r := st.resources[step.id].(typ := step.obj.typ);
      LcstateIn(c, r) && AvailabilityIn(c, r)
  }

  /** A step keeps every resource in the states of its workflow exactly if it is no update to a type without them. */
  lemma StepStaysInCycle(c: Config, st: State, step: Step)
    requires WellDefined(c) && InCycle(c, st)
    ensures InCycle(c, Next(c, st, step).0) <==> Admitted(c, st, step)
    ensures KeepsType(st, step) ==> Admitted(c, st, step)
  {
    match step
    case DoTransition(id, event) => TransitionStaysInCycle(c, st, id, event);
    case DoUpdate(id, obj) => UpdateStaysInCycle(c, st, id, obj);
    case DoCreate(typ, content, id, actor, assocId) => CreateStaysInCycle(c, st, typ, content, id, actor, assocId);
    case DoDelete(_, _) =>
    case DoAssociate(_, _, _, _) =>
    case DoDeleteAssociation(_) =>
  }

  lemma CreateStaysInCycle(c: Config, st: State, typ: string, content: string, id: string, actor: string,
                           assocId: string)
    requires WellDefined(c) && InCycle(c, st)
    ensures InCycle(c, Create(c, st, typ, content, id, actor, assocId).0)
  {
    assert LcstateIn(c, Created(c, typ, content)) && AvailabilityIn(c, Created(c, typ, content));
  }

  lemma UpdateStaysInCycle(c: Config, st: State, id: string, obj: Resource)
    requires InCycle(c, st)
    ensures InCycle(c, Update(st, id, obj).0) <==> Admitted(c, st, DoUpdate(id, obj))
    ensures KeepsType(st, DoUpdate(id, obj)) ==> Admitted(c, st, DoUpdate(id, obj))
  {
    var t := Update(st, id, obj).0;
    if Update(st, id, obj).1 == Done {
      var r := st.resources[id].(typ := obj.typ);
      assert id in t.resources && LcstateIn(c, t.resources[id]) == LcstateIn(c, r);
      assert AvailabilityIn(c, t.resources[id]) == AvailabilityIn(c, r);
    }
  }

  lemma TransitionStaysInCycle(c: Config, st: State, id: string, event: string)
    requires WellDefined(c) && InCycle(c, st)
    ensures InCycle(c, Transition(c, st, id, event).0)
  {
    if id in st.resources { assert LcstateIn(c, st.resources[id]) && AvailabilityIn(c, st.resources[id]); }
  }

  ghost predicate KeepsTypes(c: Config, st: State, steps: seq<Step>)
    decreases |steps|
  {
    steps != [] ==> KeepsType(st, steps[0]) && KeepsTypes(c, Next(c, st, steps[0]).0, steps[1..])
  }

  ghost predicate AllAdmitted(c: Config, st: State, steps: seq<Step>)
    decreases |steps|
  {
    steps != [] ==> Admitted(c, st, steps[0]) && AllAdmitted(c, Next(c, st, steps[0]).0, steps[1..])
  }

  /**
   * Over a run each resource stays at every moment in the states of its workflow, retired or deleted, exactly
   * if every update to another type finds its states there.
   */
  lemma {:induction false} RunStaysInCycle(c: Config, st: State, steps: seq<Step>)
    requires WellDefined(c) && InCycle(c, st)
    ensures (forall t | t in Moments(c, st, steps) :: InCycle(c, t)) <==> AllAdmitted(c, st, steps)
    ensures KeepsTypes(c, st, steps) ==> AllAdmitted(c, st, steps)
    decreases |steps|
  {
    if steps != [] {
      var next := Next(c, st, steps[0]).0;
      StepStaysInCycle(c, st, steps[0]);
      if InCycle(c, next) { RunStaysInCycle(c, next, steps[1..]); }
      MomentsFrom(c, next, steps[1..], next);
      forall t ensures t in Moments(c, st, steps) <==> t == st || t in Moments(c, next, steps[1..]) {
        MomentsFrom(c, st, steps, t);
      }
    }
  }

  /** An update never changes the life cycle state or the availability, whatever object it is given. */
  lemma UpdateKeepsStates(st: State, id: string, obj: Resource)
    ensures var t := Update(st, id, obj).0;
      && t.resources.Keys == st.resources.Keys && t.assocs == st.assocs
      && forall r | r in st.resources ::
           t.resources[r].lcstate == st.resources[r].lcstate
             && t.resources[r].availability == st.resources[r].availability
  {
  }

  /** The workflow of a type leads out of DELETED. */
  ghost predicate LeavesDeleted(c: Config, typ: string) {
    typ in c.workflows && exists e :: LeadsOut(c.workflows[typ], e)
  }

  predicate LeadsOut(w: Workflow, event: string) {
    && ("DELETED", event) in w.transitions && w.transitions[("DELETED", event)] != "DELETED"
    && event != RETIRE && event != DELETE
  }

  /** A deleted resource stays in DELETED on every event exactly when its workflow does not lead out of DELETED. */
  lemma DeletedStays(c: Config, st: State, id: string)
    requires id != "" && id in st.resources && st.resources[id].lcstate == DELETED
    ensures (forall e :: Transition(c, st, id, e).0.resources[id].lcstate == DELETED)
      <==> !LeavesDeleted(c, st.resources[id].typ)
  {
    var typ := st.resources[id].typ;
    if LeavesDeleted(c, typ) {
      var e :| LeadsOut(c.workflows[typ], e);
      assert Transition(c, st, id, e).0.resources[id].lcstate != DELETED;
    } else {
      forall e ensures Transition(c, st, id, e).0.resources[id].lcstate == DELETED {
        if typ in c.workflows { assert !LeadsOut(c.workflows[typ], e); }
      }
    }
  }

  /** The resource is in DELETED, and whatever the event, stays there. */
  ghost predicate DeletedForGood(c: Config, st: State, id: string) {
    && id in st.resources && st.resources[id].lcstate == DELETED
    && forall e :: Transition(c, st, id, e).0.resources[id].lcstate == DELETED
  }

  /** If the step is an update of the resource that goes through, the type given does not lead out of DELETED. */
  ghost predicate KeepsDeleted(c: Config, st: State, id: string, step: Step) {
    step.DoUpdate? && step.id == id && Update(st, id, step.obj).1 == Done ==> !LeavesDeleted(c, step.obj.typ)
  }

  ghost predicate AllKeepDeleted(c: Config, st: State, id: string, steps: seq<Step>)
    decreases |steps|
  {
    steps != [] ==> KeepsDeleted(c, st, id, steps[0]) && AllKeepDeleted(c, Next(c, st, steps[0]).0, id, steps[1..])
  }

  /**
   * Over every run that does not remove it, a deleted resource is there at every moment, in DELETED and with no
   * event that leads out, exactly if no update gives it a type whose workflow leads out.
   */
  lemma {:induction false} DeletedIsFinal(c: Config, st: State, id: string, steps: seq<Step>)
    requires DeletedForGood(c, st, id)
    requires forall i | 0 <= i < |steps| :: !(steps[i].DoDelete? && steps[i].id == id)
    ensures (forall t | t in Moments(c, st, steps) :: DeletedForGood(c, t, id)) <==> AllKeepDeleted(c, st, id, steps)
    ensures KeepsTypes(c, st, steps) ==> AllKeepDeleted(c, st, id, steps)
    decreases |steps|
  {
    if steps != [] {
      var next := Next(c, st, steps[0]).0;
      DeletedStep(c, st, id, steps[0]);
      if DeletedForGood(c, next, id) { DeletedIsFinal(c, next, id, steps[1..]); }
      MomentsFrom(c, next, steps[1..], next);
      forall t ensures t in Moments(c, st, steps) <==> t == st || t in Moments(c, next, steps[1..]) {
        MomentsFrom(c, st, steps, t);
      }
    }
  }

  lemma DeletedStep(c: Config, st: State, id: string, step: Step)
    requires DeletedForGood(c, st, id) && !(step.DoDelete? && step.id == id)
    ensures DeletedForGood(c, Next(c, st, step).0, id) <==> KeepsDeleted(c, st, id, step)
    ensures KeepsType(st, step) ==> KeepsDeleted(c, st, id, step)
  {
    var t := Next(c, st, step).0;
    if id != "" {
      DeletedStays(c, st, id);
      if step.DoTransition? && step.id == id {
        assert Transition(c, st, id, step.event).0.resources[id].lcstate == DELETED;
      }
      DeletedStays(c, t, id);
    }
  }

  /** A deleted resource comes back by an update to a type whose workflow leads out of DELETED, and the event. */
  lemma Undeleted(c: Config, st: State, id: string, typ: string) returns (obj: Resource, event: string)
    requires id != "" && id in st.resources && st.resources[id].lcstate == DELETED && LeavesDeleted(c, typ)
    ensures var t := Run(c, st, [DoUpdate(id, obj), DoTransition(id, event)]);
      id in t.resources && t.resources[id].lcstate != DELETED
  {
    obj := st.resources[id].(typ := typ);
    event :| LeadsOut(c.workflows[typ], event);
    var steps := [DoUpdate(id, obj), DoTransition(id, event)];
    var next := Next(c, st, steps[0]).0;
    assert steps[1..] == [DoTransition(id, event)] && steps[1..][1..] == [];
    assert Run(c, st, steps) == Run(c, next, steps[1..]) == Next(c, next, steps[1..][0]).0;
  }

  // ------------------------------------------------- the registry object

  class Registry {
    const config: Config
    var resources: map<string, Resource>
    var assocs: map<string, Assoc>

    ghost function View(): State
      reads this
    {
      State(resources, assocs)
    }

    constructor (config: Config)
      ensures View() == State(map[], map[]) && Integrity(config, View()) && InCycle(config, View())
      ensures this.config == config
    {
      this.config := config;
      resources, assocs := map[], map[];
    }

    method CreateAssociation(s: Endpoint, p: string, o: Endpoint, newId: string) returns (r: Outcome)
      modifies this
      ensures (View(), r) == Associate(config, old(View()), s, p, o, newId)
      ensures old(Integrity(config, View()) && newId !in assocs) ==>
        (Integrity(config, View()) <==> r != Done || (AsStored(old(View()), s) && AsStored(old(View()), o)))
    {
      ghost var was := View();
      if Integrity(config, was) && newId !in assocs { AssociateKeeps(config, was, s, p, o, newId); }
      if s == ById("") || p == "" || o == ById("") { return BadRequest; }
      var subjectType, objectType;
      r, subjectType := TypeOf(s);
      if r != Done { return; }
      r, objectType := TypeOf(o);
      if r != Done { return; }
      if p !in config.preds { return TypeError; }
      if !Allowed(config, config.preds[p].domain, subjectType) { return BadRequest; }
      if !Allowed(config, config.preds[p].range, objectType) { return BadRequest; }
      var duplicate := FindAssociation(s.id, p, o.id);
      if duplicate { return BadRequest; }
      assocs := assocs[newId := Assoc(s.id, subjectType, p, o.id, objectType, false)];
      return Done;
    }

    method TypeOf(e: Endpoint) returns (r: Outcome, typ: string)
      ensures (r, typ) == Resolve(View(), e)
    {
      match e
      case ById(id) =>
        if id !in resources { return NotFound, ""; }
        return Done, resources[id].typ;
      case Given(id, t) =>
        if id == "" { return BadRequest, ""; }
        return Done, t;
    }

    method FindAssociation(s: string, p: string, o: string) returns (found: bool)
      ensures found <==> exists k :: k in assocs && Between(assocs[k], s, p, o)
    {
      var todo := assocs.Keys;
      while todo != {}
        invariant todo <= assocs.Keys
        invariant forall k | k in assocs && Between(assocs[k], s, p, o) :: k in todo
        decreases todo
      {
        var k :| k in todo;
        if Between(assocs[k], s, p, o) { return true; }
        todo := todo - {k};
      }
      return false;
    }

    method CreateResource(typ: string, content: string, id: string, actor: string, assocId: string) returns (r: Outcome)
      modifies this
      ensures (View(), r) == Create(config, old(View()), typ, content, id, actor, assocId)
      ensures old(Integrity(config, View()) && assocId !in assocs) ==> Integrity(config, View())
    {
      ghost var was := View();
      if Integrity(config, was) && assocId !in assocs { CreateKeeps(config, was, typ, content, id, actor, assocId); }
      if typ !in config.resourceTypes { return BadRequest; }
      var obj := Resource(typ, DEPLOYED, AVAILABLE, 1, content);
      if typ in config.workflows {
        obj := obj.(lcstate := config.workflows[typ].initial, availability := config.workflows[typ].initialAvail);
      }
      if id in resources { return BadRequest; }
      resources := resources[id := obj];
      if actor != "" && actor != "anonymous" {
        r := CreateAssociation(ById(id), HasOwner, ById(actor), assocId);
        return;
      }
      return Done;
    }

    method UpdateResource(id: string, given: Resource) returns (r: Outcome)
      modifies this
      ensures (View(), r) == Update(old(View()), id, given)
      ensures resources.Keys == old(resources.Keys)
      ensures forall k | k in resources :: resources[k].lcstate == old(resources)[k].lcstate
      ensures forall k | k in resources :: resources[k].availability == old(resources)[k].availability
      ensures old(Integrity(config, View())) ==>
        (Integrity(config, View()) <==> r != Done || !Retypes(old(View()), id, given))
    {
      ghost var was := View();
      if Integrity(config, was) { UpdateKeeps(config, was, id, given); }
      if id == "" { return BadRequest; }
      if id !in resources { return NotFound; }
      var obj := given;
      var stored := resources[id];
      if stored.lcstate != obj.lcstate || stored.availability != obj.availability {
        obj := obj.(lcstate := stored.lcstate, availability := stored.availability);
      }
      if obj.rev != stored.rev { return Conflict; }
      resources := resources[id := obj.(rev := obj.rev + 1)];
      return Done;
    }

    method DeleteResource(id: string, delAssociations: bool) returns (r: Outcome)
      modifies this
      ensures (View(), r) == Delete(old(View()), id, delAssociations)
      ensures old(Integrity(config, View())) ==>
        (Integrity(config, View()) <==> r != Done || !LeavesBehind(old(View()), id, delAssociations))
    {
      ghost var was := View();
      if id == "" { return BadRequest; }
      if id !in resources { return NotFound; }
      if Integrity(config, was) { DeleteKeeps(config, was, id, delAssociations); }
      var todo := set k | k in assocs
        && if delAssociations then Touches(assocs[k], id) else OwnedBy(State(resources, assocs), assocs[k], id);
      DeleteAssociations(todo);
      resources := resources - {id};
      assert assocs == Delete(was, id, delAssociations).0.assocs;
      return Done;
    }

    method DeleteAssociations(ids: set<string>)
      modifies this
      ensures resources == old(resources) && assocs == old(assocs) - ids
    {
      var todo := ids;
      while todo != {}
        invariant resources == old(resources) && assocs == old(assocs) - (ids - todo) && todo <= ids
        decreases todo
      {
        var k :| k in todo;
        assocs := assocs - {k};
        todo := todo - {k};
      }
      assert ids - todo == ids;
    }

    method LcsDeleteResource(id: string) returns (r: Outcome)
      modifies this
      ensures (View(), r) == LcsDelete(old(View()), id)
    {
      if id == "" { return BadRequest; }
      if id !in resources { return NotFound; }
      var obj := resources[id];
      if obj.lcstate == DELETED { return BadRequest; }
      ghost var was := View();
      resources := resources[id := obj.(lcstate := DELETED, rev := obj.rev + 1)];
      var todo := set k | k in assocs && Touches(assocs[k], id);
      while todo != {}
        invariant resources == LcsDelete(was, id).0.resources && assocs.Keys == was.assocs.Keys
        invariant forall k | k in todo :: k in assocs && Touches(was.assocs[k], id)
        invariant forall k | k in assocs && (k in todo || !Touches(was.assocs[k], id)) :: assocs[k] == was.assocs[k]
        invariant forall k | k in assocs && k !in todo && Touches(was.assocs[k], id) ::
          assocs[k] == was.assocs[k].(retired := true)
        decreases todo
      {
        var k :| k in todo;
        assocs := assocs[k := assocs[k].(retired := true)];
        todo := todo - {k};
      }
      assert assocs == LcsDelete(was, id).0.assocs;
      return Done;
    }

    method ExecuteLifecycleTransition(id: string, event: string) returns (r: Outcome)
      modifies this
      ensures (View(), r) == Transition(config, old(View()), id, event)
      ensures old(Integrity(config, View())) ==> Integrity(config, View())
      ensures WellDefined(config) && old(InCycle(config, View())) ==> InCycle(config, View())
    {
      ghost var was := View();
      if Integrity(config, was) { TransitionKeeps(config, was, id, event); }
      if WellDefined(config) && InCycle(config, was) { TransitionStaysInCycle(config, was, id, event); }
      if event == DELETE {
        r := LcsDeleteResource(id);
        return;
      }
      if id == "" { return BadRequest; }
      if id !in resources { return NotFound; }
      var obj := resources[id];
      if event == RETIRE {
        if obj.lcstate == RETIRED || obj.lcstate == DELETED { return BadRequest; }
        obj := obj.(lcstate := RETIRED);
      } else {
        if obj.typ !in config.workflows { return BadRequest; }
        var w := config.workflows[obj.typ];
        var lcstate := Successor(w.transitions, obj.lcstate, event);
        var availability := Successor(w.availTransitions, obj.availability, event);
        if lcstate.None? && availability.None? { return BadRequest; }
        if lcstate.Some? { obj := obj.(lcstate := lcstate); }
        if availability.Some? { obj := obj.(availability := availability); }
      }
      resources := resources[id := obj.(rev := obj.rev + 1)];
      return Done;
    }

    method DeleteAssociationById(assocId: string) returns (r: Outcome)
      modifies this
      ensures (View(), r) == DeleteAssociation(old(View()), assocId)
      ensures old(Integrity(config, View())) ==> Integrity(config, View())
    {
      ghost var was := View();
      if Integrity(config, was) { StepKeepsIntegrity(config, was, DoDeleteAssociation(assocId)); }
      if assocId !in assocs { return NotFound; }
      assocs := assocs - {assocId};
      return Done;
    }
  }
}
