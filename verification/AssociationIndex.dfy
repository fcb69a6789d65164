/** The associations of a resource and the index they are kept in while it is extended (pyon/ion/resource.py). */
module AssociationIndex {
  import opened Wrappers

  /** s is associated with o by predicate p; st and ot are the types of s and o. */
  datatype Assoc = Assoc(s: string, st: string, p: string, o: string, ot: string)

  datatype Obj = Obj(id: string, typ: string, bases: set<string>)

  datatype Direction = Either | Forward | Backward

  /** A predicate as a decorator names it, with an optional direction sign at the end. */
  datatype PredRef = PredRef(name: string, direction: Direction)

  datatype Predicate = Predicate(domain: set<string>, range: set<string>)

  /** The predicates, and for each type the types extended from it. */
  datatype Config = Config(preds: map<string, Predicate>, extended: map<string, set<string>>)

  datatype Kind = ListField | IntField | ObjectField

  datatype Decorator =
    | Single(pred: PredRef, types: set<string>)
    | Compound(first: PredRef, second: PredRef, types: set<string>, finalType: Option<string>)

  datatype Field = Field(name: string, kind: Kind, decorator: Decorator)

  datatype FieldValue = Objects(objs: seq<Obj>) | Count(n: nat) | Object(obj: Option<Obj>)

  type Hits = seq<(string, Assoc)>

  // ------------------------------------------------- the index

  function Key(a: Assoc, backward: bool): (string, string) { if backward then (a.o, a.p) else (a.s, a.p) }

  /** The associations found by going through a whole list, in its order. */
  function Select(list: seq<Assoc>, key: (string, string), backward: bool): seq<Assoc> {
    if list == [] then []
    else
      var last := list[|list| - 1];
      Select(list[..|list| - 1], key, backward) + (if Key(last, backward) == key then [last] else [])
  }

  function HitsOf(list: seq<Assoc>, types: set<string>, backward: bool): Hits {
    if list == [] then []
    else
      var last := list[|list| - 1];
      HitsOf(list[..|list| - 1], types, backward)
        + (if types == {} || (if backward then last.st else last.ot) in types
           then [(if backward then last.s else last.o, last)] else [])
  }

  /** What following a predicate from a resource gives, by a linear filter over all associations. */
  function Follow(list: seq<Assoc>, id: string, pred: string, types: set<string>, backward: bool): Hits {
    HitsOf(Select(list, (id, pred), backward), types, backward)
  }

  /** The type is extended from one of some types. */
  predicate Extended(config: Config, typs: set<string>, t: string) {
    exists b | b in typs && b in config.extended :: t in config.extended[b]
  }

  datatype Route = OutThenIn | Out | In | Nowhere

  /** Which side of an association a resource is looked up on: exact types come before base types. */
  function RouteOf(config: Config, pred: PredRef, t: string): Route {
    if pred.name !in config.preds then Nowhere
    else
      var p := config.preds[pred.name];
      var out := if pred.direction == Either then OutThenIn else Out;
      if t in p.domain && pred.direction != Backward then out
      else if t in p.range && pred.direction != Forward then In
      else if Extended(config, p.domain, t) && pred.direction != Backward then out
      else if Extended(config, p.range, t) && pred.direction != Forward then In
      else Nowhere
  }

  /** The associated resources of a resource of type t. */
  function Associated(config: Config, list: seq<Assoc>, id: string, t: string, pred: PredRef, types: set<string>)
    : Hits
  {
    match RouteOf(config, pred, t)
    case Out => Follow(list, id, pred.name, types, false)
    case In => Follow(list, id, pred.name, types, true)
    case OutThenIn =>
      var out := Follow(list, id, pred.name, types, false);
      if out != [] then out else Follow(list, id, pred.name, types, true)
    case Nowhere => []
  }

  // ------------------------------------------------- what is found

  /** The associations of a list that lead from a resource to a target of some type, in order. */
  function Outgoing(list: seq<Assoc>, id: string, pred: string, types: set<string>): Hits {
    if list == [] then []
    else
      var a := list[|list| - 1];
      Outgoing(list[..|list| - 1], id, pred, types)
        + (if a.s == id && a.p == pred && (types == {} || a.ot in types) then [(a.o, a)] else [])
  }

  /** Those that lead to it. */
  function Incoming(list: seq<Assoc>, id: string, pred: string, types: set<string>): Hits {
    if list == [] then []
    else
      var a := list[|list| - 1];
      Incoming(list[..|list| - 1], id, pred, types)
        + (if a.o == id && a.p == pred && (types == {} || a.st in types) then [(a.s, a)] else [])
  }

  lemma {:induction false} FollowIsFilter(list: seq<Assoc>, id: string, pred: string, types: set<string>)
    ensures Follow(list, id, pred, types, false) == Outgoing(list, id, pred, types)
    ensures Follow(list, id, pred, types, true) == Incoming(list, id, pred, types)
    decreases |list|
  {
    if list != [] {
      var front, a := list[..|list| - 1], list[|list| - 1];
      FollowIsFilter(front, id, pred, types);
      HitsSnoc(Select(front, (id, pred), false), a, types, false);
      HitsSnoc(Select(front, (id, pred), true), a, types, true);
      assert [a][..0] == [];
      assert forall xs: seq<Assoc> :: xs + [] == xs;
    }
  }

  lemma {:induction false} FilterHas(list: seq<Assoc>, id: string, pred: string, types: set<string>, x: string,
                                     a: Assoc)
    ensures (x, a) in Outgoing(list, id, pred, types)
      <==> a in list && a.s == id && a.p == pred && x == a.o && (types == {} || a.ot in types)
    ensures (x, a) in Incoming(list, id, pred, types)
      <==> a in list && a.o == id && a.p == pred && x == a.s && (types == {} || a.st in types)
    decreases |list|
  {
    if list != [] {
      var n := |list| - 1;
      FilterHas(list[..n], id, pred, types, x, a);
      assert a in list <==> a in list[..n] || a == list[n];
    }
  }

  /**
   * What a resource of type t is associated with: where its type is in the domain and the sign is not "<", what
   * it leads to, or if that is nothing and there is no sign, what leads to it; else where its type is in the
   * range and the sign is not ">", what leads to it; if neither, the same for the types it is extended from.
   */
  ghost predicate IsAssociated(config: Config, list: seq<Assoc>, id: string, t: string, pred: PredRef,
                               types: set<string>, hits: Hits)
  {
    var forward, backward := Outgoing(list, id, pred.name, types), Incoming(list, id, pred.name, types);
    var first := if forward == [] && pred.direction == Either then backward else forward;
    if pred.name !in config.preds then hits == []
    else
      var p := config.preds[pred.name];
      var asSubject := pred.direction != Backward && t in p.domain;
      var asObject := pred.direction != Forward && t in p.range;
      var baseSubject := pred.direction != Backward
        && exists b :: b in p.domain && b in config.extended && t in config.extended[b];
      var baseObject := pred.direction != Forward
        && exists b :: b in p.range && b in config.extended && t in config.extended[b];
      && (asSubject ==> hits == first)
      && (!asSubject && asObject ==> hits == backward)
      && (!asSubject && !asObject && baseSubject ==> hits == first)
      && (!asSubject && !asObject && !baseSubject && baseObject ==> hits == backward)
      && (!asSubject && !asObject && !baseSubject && !baseObject ==> hits == [])
  }

  lemma AssociatedIs(config: Config, list: seq<Assoc>, id: string, t: string, pred: PredRef, types: set<string>)
    ensures IsAssociated(config, list, id, t, pred, types, Associated(config, list, id, t, pred, types))
  {
    FollowIsFilter(list, id, pred.name, types);
  }

  /** Whatever is found is an association of the list by the predicate, with the resource at its one end. */
  lemma AssociatedHas(config: Config, list: seq<Assoc>, id: string, t: string, pred: PredRef, types: set<string>,
                      x: string, a: Assoc)
    requires (x, a) in Associated(config, list, id, t, pred, types)
    ensures a in list && a.p == pred.name && ((a.s == id && a.o == x) || (a.o == id && a.s == x))
    ensures pred.direction == Forward ==> a.s == id && a.o == x
    ensures pred.direction == Backward ==> a.o == id && a.s == x
  {
    FollowIsFilter(list, id, pred.name, types);
    FilterHas(list, id, pred.name, types, x, a);
  }

  type Index = map<(string, string), seq<Assoc>>

  function At(index: Index, key: (string, string)): seq<Assoc> { if key in index then index[key] else [] }

  /** Looking a key up in the index gives what going through the list gives. */
  ghost predicate Indexes(index: Index, list: seq<Assoc>, backward: bool) {
    forall key :: At(index, key) == Select(list, key, backward)
  }

  lemma SelectSnoc(list: seq<Assoc>, a: Assoc, key: (string, string), backward: bool)
    ensures Select(list + [a], key, backward) == Select(list, key, backward) + if Key(a, backward)
      == key then [a] else []
  {
    assert (list + [a])[..|list|] == list;
  }

  lemma HitsSnoc(list: seq<Assoc>, a: Assoc, types: set<string>, backward: bool)
    ensures HitsOf(list + [a], types, backward) == HitsOf(list, types, backward) + HitsOf([a], types, backward)
  {
    assert (list + [a])[..|list|] == list;
    assert [a][..0] == [];
  }

  method AddToIndex(index: Index, a: Assoc, backward: bool, ghost list: seq<Assoc>) returns (index': Index)
    requires Indexes(index, list, backward)
    ensures Indexes(index', list + [a], backward)
  {
    var key := Key(a, backward);
    index' := index;
    if key !in index' {
      index' := index'[key := []];
    }
    index' := index'[key := index'[key] + [a]];
    forall k ensures At(index', k) == Select(list + [a], k, backward) {
      assert At(index, k) == Select(list, k, backward);
      SelectSnoc(list, a, k, backward);
    }
  }

  /** The associations found so far, indexed by (resource id, predicate) on either side. */
  class Context {
    var bySubject: Index
    var byObject: Index
    ghost var loaded: seq<Assoc>

    ghost predicate Valid()
      reads this
    {
      Indexes(bySubject, loaded, false) && Indexes(byObject, loaded, true)
    }

    constructor ()
      ensures Valid() && loaded == []
    {
      bySubject, byObject, loaded := map[], map[], [];
    }

    method AddAssociations(assocs: seq<Assoc>)
      requires Valid()
      modifies this
      ensures Valid() && loaded == old(loaded) + assocs
    {
      for i := 0 to |assocs|
        invariant Valid() && loaded == old(loaded) + assocs[..i]
      {
        bySubject := AddToIndex(bySubject, assocs[i], false, loaded);
        byObject := AddToIndex(byObject, assocs[i], true, loaded);
        loaded := loaded + [assocs[i]];
      }
    }

    /** The index gives what a linear filter over everything loaded gives, order included. */
    method FindAssociations(id: string, pred: string, types: set<string>, backward: bool) returns (hits: Hits)
      requires Valid()
      ensures hits == Follow(loaded, id, pred, types, backward)
      ensures hits == if backward then Incoming(loaded, id, pred, types) else Outgoing(loaded, id, pred, types)
    {
      FollowIsFilter(loaded, id, pred, types);
      var index := if backward then byObject else bySubject;
      var list := At(index, (id, pred));
      assert list == Select(loaded, (id, pred), backward);
      hits := [];
      for i := 0 to |list|
        invariant hits == HitsOf(list[..i], types, backward)
      {
        var a := list[i];
        assert list[..i + 1] == list[..i] + [a];
        HitsSnoc(list[..i], a, types, backward);
        if types == {} || (if backward then a.st else a.ot) in types {
          hits := hits + [(if backward then a.s else a.o, a)];
        }
      }
      assert list[..|list|] == list;
    }

    method FindAssociatedResources(config: Config, id: string, t: string, pred: PredRef, types: set<string>)
      returns (hits: Hits)
      requires Valid()
      ensures hits == Associated(config, loaded, id, t, pred, types)
      ensures IsAssociated(config, loaded, id, t, pred, types, hits)
    {
      AssociatedIs(config, loaded, id, t, pred, types);
      hits := [];
      var route := RouteOf(config, pred, t);
      if route == Out || route == OutThenIn {
        hits := FindAssociations(id, pred.name, types, false);
        if hits == [] && route == OutThenIn {
          hits := FindAssociations(id, pred.name, types, true);
        }
      } else if route == In {
        hits := FindAssociations(id, pred.name, types, true);
      }
    }
  }
}
