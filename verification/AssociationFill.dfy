/** Filling the fields of an extended resource in batches (pyon/ion/resource.py, set_object_field_values). */
module AssociationFill {
  import opened Wrappers
  import opened AssociationIndex

  // ------------------------------------------------- one field, one association at a time

  /** The type of a target, as its association records it. */
  function TypeAt(hit: (string, Assoc)): string { if hit.0 == hit.1.o then hit.1.ot else hit.1.st }

  /** At either end of an association between two resources. */
  lemma TypeAtEnds(a: Assoc)
    ensures TypeAt((a.o, a)) == a.ot && (a.s != a.o ==> TypeAt((a.s, a)) == a.st)
  {
  }

  function Second(config: Config, list: seq<Assoc>, hit: (string, Assoc), pred: PredRef): Hits {
    Associated(config, list, hit.0, TypeAt(hit), pred, {})
  }

  function Ids(hits: Hits): set<string> { set i | 0 <= i < |hits| :: hits[i].0 }

  function SecondIds(config: Config, list: seq<Assoc>, hits: Hits, pred: PredRef): set<string> {
    if hits == [] then {}
    else SecondIds(config, list, hits[..|hits| - 1], pred) + Ids(Second(config, list, hits[|hits| - 1], pred))
  }

  type Objs = map<string, Obj>

  function Read(objs: Objs, hits: Hits): seq<Obj>
    requires Ids(hits) <= objs.Keys
  {
    seq(|hits|, i requires 0 <= i < |hits| && hits[i].0 in objs => objs[hits[i].0])
  }

  /** The objects of another type than the resource, and of the final type if one is given. */
  function Keep(objs: seq<Obj>, res: Obj, finalType: Option<string>): seq<Obj> {
    if objs == [] then []
    else
      var last := objs[|objs| - 1];
      Keep(objs[..|objs| - 1], res, finalType)
        + (if last.typ != res.typ && (finalType.Some? ==> finalType.value in last.bases) then [last] else [])
  }

  /** The objects found by following a second predicate from every target of the first. */
  function Reached(config: Config, list: seq<Assoc>, res: Obj, hits: Hits, d: Decorator, objs: Objs): seq<Obj>
    requires d.Compound? && SecondIds(config, list, hits, d.second) <= objs.Keys
  {
    if hits == [] then []
    else
      var n := |hits| - 1;
      Reached(config, list, res, hits[..n], d, objs)
        + Keep(Read(objs, Second(config, list, hits[n], d.second)), res, d.finalType)
  }

  function FirstHits(config: Config, list: seq<Assoc>, res: Obj, d: Decorator): Hits {
    Associated(config, list, res.id, res.typ, if d.Single? then d.pred else d.first, d.types)
  }

  /** The ids of the objects that a field takes its value from; l0 and l1 are the lists searched at either level. */
  function FieldIds(config: Config, l0: seq<Assoc>, l1: seq<Assoc>, res: Obj, f: Field): set<string> {
    var hits := FirstHits(config, l0, res, f.decorator);
    if f.decorator.Compound? then SecondIds(config, l1, hits, f.decorator.second)
    else match f.kind
      case ListField => Ids(hits)
      case IntField => {}
      case ObjectField => if hits == [] then {} else {hits[0].0}
  }

  /** What a field is set to, if at all, when its objects are read one by one. */
  function ValueOf(config: Config, l0: seq<Assoc>, l1: seq<Assoc>, res: Obj, f: Field, objs: Objs): Option<FieldValue>
    requires FieldIds(config, l0, l1, res, f) <= objs.Keys
  {
    var hits := FirstHits(config, l0, res, f.decorator);
    if f.decorator.Compound? then CompoundValue(f.kind, Reached(config, l1, res, hits, f.decorator, objs))
    else match f.kind
      case ListField => if hits == [] then None else Some(Objects(Read(objs, hits)))
      case IntField => Some(Count(|hits|))
      case ObjectField => Some(Object(if hits == [] then None else Some(objs[hits[0].0])))
  }

  function CompoundValue(kind: Kind, found: seq<Obj>): Option<FieldValue> {
    match kind
    case ListField => if found == [] then None else Some(Objects(found))
    case IntField => Some(Count(|found|))
    case ObjectField => Some(Object(if found == [] then None else Some(found[0])))
  }

  lemma {:induction false} SameReached(config: Config, list: seq<Assoc>, res: Obj, hits: Hits, d: Decorator, objs: Objs,
      objs': Objs)
    requires d.Compound? && SecondIds(config, list, hits, d.second) <= objs.Keys
    requires objs.Keys <= objs'.Keys && forall id | id in objs :: objs[id] == objs'[id]
    ensures Reached(config, list, res, hits, d, objs) == Reached(config, list, res, hits, d, objs')
    decreases |hits|
  {
    if hits != [] {
      var n := |hits| - 1;
      SameReached(config, list, res, hits[..n], d, objs, objs');
      var second := Second(config, list, hits[n], d.second);
      assert Ids(second) <= objs.Keys;
      assert Read(objs, second) == Read(objs', second);
    }
  }

  /** Only the objects a field needs have to be read. */
  lemma SameValue(config: Config, l0: seq<Assoc>, l1: seq<Assoc>, res: Obj, f: Field, objs: Objs, objs': Objs)
    requires FieldIds(config, l0, l1, res, f) <= objs.Keys
    requires objs.Keys <= objs'.Keys && forall id | id in objs :: objs[id] == objs'[id]
    ensures ValueOf(config, l0, l1, res, f, objs) == ValueOf(config, l0, l1, res, f, objs')
  {
    var hits := FirstHits(config, l0, res, f.decorator);
    if f.decorator.Compound? {
      SameReached(config, l1, res, hits, f.decorator, objs, objs');
    } else if f.kind == ListField {
      assert Read(objs, hits) == Read(objs', hits);
    }
  }

  // ------------------------------------------------- all fields, in batches

  datatype Need =
    | ListNeed(field: Field, hits: Hits)
    | ObjectNeed(field: Field, hit: (string, Assoc))
    | CompoundNeed(field: Field, hits: Hits)

  /** What has to be read before the field can be set. */
  function NeedOf(config: Config, l0: seq<Assoc>, res: Obj, f: Field): Option<Need> {
    var hits := FirstHits(config, l0, res, f.decorator);
    if f.decorator.Compound? then Some(CompoundNeed(f, hits))
    else if hits == [] || f.kind == IntField then None
    else if f.kind == ListField then Some(ListNeed(f, hits))
    else Some(ObjectNeed(f, hits[0]))
  }

  /** What the field can be set to before anything is read. */
  function DirectOf(config: Config, l0: seq<Assoc>, res: Obj, f: Field): Option<FieldValue> {
    var hits := FirstHits(config, l0, res, f.decorator);
    if f.decorator.Compound? then None
    else if f.kind == IntField then Some(Count(|hits|))
    else if f.kind == ObjectField && hits == [] then Some(Object(None))
    else None
  }

  function FirstIds(need: Need): set<string> {
    match need
    case ListNeed(_, hits) => Ids(hits)
    case ObjectNeed(_, hit) => {hit.0}
    case CompoundNeed(_, _) => {}
  }

  function Raw(pred: PredRef): string {
    pred.name + match pred.direction { case Either => "" case Forward => ">" case Backward => "<" }
  }

  /** The second-level associations to load: by target and by predicate as the decorator spells it. */
  function Pairs(need: Need): set<(string, string)> {
    if need.CompoundNeed? && need.field.decorator.Compound?
    then set id | id in Ids(need.hits) :: (id, Raw(need.field.decorator.second)) else {}
  }

  ghost predicate Set(values: map<string, FieldValue>, name: string, v: Option<FieldValue>) {
    if v.None? then name !in values else name in values && values[name] == v.value
  }

  predicate Distinct(fields: seq<Field>) {
    forall f, g | f in fields && g in fields && f.name == g.name :: f == g
  }

  /** The needs of the fields. */
  ghost predicate NeedsOf(config: Config, l0: seq<Assoc>, res: Obj, fields: seq<Field>, needs: seq<Need>) {
    && (forall n | n in needs :: n.field in fields && NeedOf(config, l0, res, n.field) == Some(n))
    && (forall f | f in fields && NeedOf(config, l0, res, f).Some? :: NeedOf(config, l0, res, f).value in needs)
  }

  function AllFirstIds(needs: seq<Need>): set<string> { set n, id | n in needs && id in FirstIds(n) :: id }

  function AllPairs(needs: seq<Need>): set<(string, string)> { set n, p | n in needs && p in Pairs(n) :: p }

  /** Step 1: goes through the fields and notes what they need. */
  method CollectNeeds(ctx: Context, config: Config, res: Obj, fields: seq<Field>)
    returns (needs: seq<Need>, ids: set<string>, pairs: set<(string, string)>, values: map<string, FieldValue>)
    requires ctx.Valid() && Distinct(fields)
    ensures NeedsOf(config, ctx.loaded, res, fields, needs)
    ensures ids == AllFirstIds(needs) && pairs == AllPairs(needs)
    ensures DirectlySet(config, ctx.loaded, res, fields, values)
  {
    needs, ids, pairs, values := [], {}, {}, map[];
    for k := 0 to |fields|
      invariant NeedsOf(config, ctx.loaded, res, fields[..k], needs)
      invariant ids == AllFirstIds(needs) && pairs == AllPairs(needs)
      invariant DirectlySet(config, ctx.loaded, res, fields[..k], values)
    {
      var need, direct := FieldNeed(ctx, config, res, fields[k]);
      assert fields[..k + 1] == fields[..k] + [fields[k]] && forall f | f in fields[..k] :: f in fields;
      SetsOne(config, ctx.loaded, res, fields[..k], fields[k], values);
      NotesOne(config, ctx.loaded, res, fields[..k], fields[k], needs);
      if direct.Some? { values := values[fields[k].name := direct.value]; }
      if need.Some? {
        NeedsMore(needs, need.value);
        needs, ids, pairs := needs + [need.value], ids + FirstIds(need.value), pairs + Pairs(need.value);
      }
    }
    assert fields[..|fields|] == fields;
  }

  /** The fields hold what they can be set to at once, and nothing else is set. */
  ghost predicate DirectlySet(config: Config, l0: seq<Assoc>, res: Obj, fields: seq<Field>,
                              values: map<string, FieldValue>) {
    && (forall f | f in fields :: Set(values, f.name, DirectOf(config, l0, res, f)))
    && values.Keys <= Names(fields)
  }

  function Names(fields: seq<Field>): set<string> { set f | f in fields :: f.name }

  lemma SetsOne(config: Config, l0: seq<Assoc>, res: Obj, done: seq<Field>, f: Field, values: map<string, FieldValue>)
    requires DirectlySet(config, l0, res, done, values)
    requires forall g | g in done && g.name == f.name :: g == f
    ensures var v := DirectOf(config, l0, res, f);
      DirectlySet(config, l0, res, done + [f], if v.Some? then values[f.name := v.value] else values)
  {
    var v := DirectOf(config, l0, res, f);
    var values' := if v.Some? then values[f.name := v.value] else values;
    if f.name in values {
      var g :| g in done && g.name == f.name;
      assert g == f;
    }
    forall g | g in done + [f] ensures Set(values', g.name, DirectOf(config, l0, res, g)) {}
    assert f in done + [f] && forall g | g in done :: g in done + [f];
  }

  lemma NotesOne(config: Config, l0: seq<Assoc>, res: Obj, done: seq<Field>, f: Field, needs: seq<Need>)
    requires NeedsOf(config, l0, res, done, needs)
    ensures var need := NeedOf(config, l0, res, f);
      NeedsOf(config, l0, res, done + [f], if need.Some? then needs + [need.value] else needs)
  {
  }

  lemma NeedsMore(needs: seq<Need>, need: Need)
    ensures AllFirstIds(needs + [need]) == AllFirstIds(needs) + FirstIds(need)
    ensures AllPairs(needs + [need]) == AllPairs(needs) + Pairs(need)
  {
    var more := needs + [need];
    assert forall n | n in more :: n in needs || n == need;
    assert need in more && forall n | n in needs :: n in more;
  }

  method FieldNeed(ctx: Context, config: Config, res: Obj, f: Field)
    returns (need: Option<Need>, direct: Option<FieldValue>)
    requires ctx.Valid()
    ensures need == NeedOf(config, ctx.loaded, res, f) && direct == DirectOf(config, ctx.loaded, res, f)
  {
    need, direct := None, None;
    var d := f.decorator;
    var hits := ctx.FindAssociatedResources(config, res.id, res.typ, if d.Single? then d.pred else d.first, d.types);
    if d.Compound? {
      need := Some(CompoundNeed(f, hits));
    } else if f.kind == ListField {
      if hits != [] { need := Some(ListNeed(f, hits)); }
    } else if f.kind == IntField {
      direct := Some(Count(|hits|));
    } else if hits != [] {
      need := Some(ObjectNeed(f, hits[0]));
    } else {
      direct := Some(Object(None));
    }
  }

  function SecondIdsOf(config: Config, l1: seq<Assoc>, need: Need): set<string> {
    if need.CompoundNeed? && need.field.decorator.Compound?
    then SecondIds(config, l1, need.hits, need.field.decorator.second) else {}
  }

  function AllSecondIds(config: Config, l1: seq<Assoc>, needs: seq<Need>): set<string> {
    set n, id | n in needs && id in SecondIdsOf(config, l1, n) :: id
  }

  /** Step 2: the ids of the second-level targets. */
  method CollectSecondIds(ctx: Context, config: Config, needs: seq<Need>) returns (ids: set<string>)
    requires ctx.Valid()
    ensures ids == AllSecondIds(config, ctx.loaded, needs)
  {
    ids := {};
    for k := 0 to |needs|
      invariant ids == AllSecondIds(config, ctx.loaded, needs[..k])
    {
      var need := needs[k];
      var more := {};
      if need.CompoundNeed? && need.field.decorator.Compound? {
        for i := 0 to |need.hits|
          invariant more == SecondIds(config, ctx.loaded, need.hits[..i], need.field.decorator.second)
        {
          assert need.hits[..i + 1][..i] == need.hits[..i];
          var hits := ctx.FindAssociatedResources(config, need.hits[i].0, TypeAt(need.hits[i]),
              need.field.decorator.second, {});
          more := more + Ids(hits);
        }
        assert need.hits[..|need.hits|] == need.hits;
      }
      SecondIdsMore(config, ctx.loaded, needs[..k], need);
      assert needs[..k + 1] == needs[..k] + [need];
      ids := ids + more;
    }
    assert needs[..|needs|] == needs;
  }

  lemma SecondIdsMore(config: Config, l1: seq<Assoc>, needs: seq<Need>, need: Need)
    ensures AllSecondIds(config, l1, needs + [need]) == AllSecondIds(config, l1, needs) + SecondIdsOf(config, l1, need)
  {
    var more := needs + [need];
    assert forall n | n in more :: n in needs || n == need;
    assert need in more && forall n | n in needs :: n in more;
  }

  lemma NoSecondIds(config: Config, l1: seq<Assoc>, needs: seq<Need>)
    requires AllPairs(needs) == {}
    ensures AllSecondIds(config, l1, needs) == {}
  {
    forall need | need in needs ensures SecondIdsOf(config, l1, need) == {} {
      assert Pairs(need) <= AllPairs(needs);
      if need.CompoundNeed? && need.field.decorator.Compound? {
        var raw := Raw(need.field.decorator.second);
        assert forall i | 0 <= i < |need.hits| :: (need.hits[i].0, raw) in Pairs(need);
      }
    }
  }

  /** The associations in the store with one of the ids, or one of the ids and predicates, on either side. */
  function Where(store: seq<Assoc>, ids: set<string>, pairs: set<(string, string)>): seq<Assoc> {
    if store == [] then []
    else
      var a := store[|store| - 1];
      Where(store[..|store| - 1], ids, pairs)
        + (if a.s in ids || a.o in ids || Key(a, false) in pairs || Key(a, true) in pairs then [a] else [])
  }

  /** Step 4: what one need sets its field to, from the objects read. */
  method ApplyNeed(ctx: Context, config: Config, ghost l0: seq<Assoc>, res: Obj, need: Need, objs: Objs)
    returns (v: Option<FieldValue>)
    requires ctx.Valid() && NeedOf(config, l0, res, need.field) == Some(need)
    requires FirstIds(need) + SecondIdsOf(config, ctx.loaded, need) <= objs.Keys
    ensures FieldIds(config, l0, ctx.loaded, res, need.field) <= objs.Keys
    ensures v == ValueOf(config, l0, ctx.loaded, res, need.field, objs)
  {
    match need
    case ListNeed(f, hits) => v := Some(Objects(Read(objs, hits)));
    case ObjectNeed(f, hit) => v := Some(Object(Some(objs[hit.0])));
    case CompoundNeed(f, hits) =>
      var found := [];
      if f.decorator.Compound? {
        found := FollowSecond(ctx, config, res, hits, f.decorator, objs);
      }
      v := CompoundValue(f.kind, found);
  }

  method FollowSecond(ctx: Context, config: Config, res: Obj, hits: Hits, d: Decorator, objs: Objs)
    returns (found: seq<Obj>)
    requires ctx.Valid() && d.Compound?
    requires SecondIds(config, ctx.loaded, hits, d.second) <= objs.Keys
    ensures found == Reached(config, ctx.loaded, res, hits, d, objs)
  {
    var nested := ReadSecond(ctx, config, hits, d.second, objs);
    found := [];
    for i := 0 to |nested|
      invariant found == Joined(nested[..i], res, d.finalType)
    {
      assert nested[..i + 1][..i] == nested[..i];
      found := found + Keep(nested[i], res, d.finalType);
    }
    assert nested[..|nested|] == nested;
    ReachedIsJoined(config, ctx.loaded, res, hits, d, objs, nested);
  }

  function Joined(nested: seq<seq<Obj>>, res: Obj, finalType: Option<string>): seq<Obj> {
    if nested == [] then []
    else Joined(nested[..|nested| - 1], res, finalType) + Keep(nested[|nested| - 1], res, finalType)
  }

  ghost predicate IsRead(objs: Objs, hits: Hits, read: seq<Obj>) {
    Ids(hits) <= objs.Keys && read == Read(objs, hits)
  }

  method ReadSecond(ctx: Context, config: Config, hits: Hits, pred: PredRef, objs: Objs) returns (nested: seq<seq<Obj>>)
    requires ctx.Valid() && SecondIds(config, ctx.loaded, hits, pred) <= objs.Keys
    ensures AllRead(config, ctx.loaded, hits, pred, objs, nested) && |nested| == |hits|
  {
    nested := [];
    for i := 0 to |hits|
      invariant AllRead(config, ctx.loaded, hits, pred, objs, nested) && |nested| == i
    {
      var second := ctx.FindAssociatedResources(config, hits[i].0, TypeAt(hits[i]), pred, {});
      SecondIdsAt(config, ctx.loaded, hits, pred, i);
      ReadOneMore(config, ctx.loaded, hits, pred, objs, nested, Read(objs, second));
      nested := nested + [Read(objs, second)];
    }
  }

  /** The objects read for the first targets. */
  ghost predicate AllRead(config: Config, list: seq<Assoc>, hits: Hits, pred: PredRef, objs: Objs,
                          nested: seq<seq<Obj>>) {
    && |nested| <= |hits|
    && forall k | 0 <= k < |nested| :: IsRead(objs, Second(config, list, hits[k], pred), nested[k])
  }

  lemma ReadOneMore(config: Config, list: seq<Assoc>, hits: Hits, pred: PredRef, objs: Objs, nested: seq<seq<Obj>>,
                    read: seq<Obj>)
    requires AllRead(config, list, hits, pred, objs, nested) && |nested| < |hits|
    requires IsRead(objs, Second(config, list, hits[|nested|], pred), read)
    ensures AllRead(config, list, hits, pred, objs, nested + [read])
  {
  }

  lemma {:induction false} ReachedIsJoined(config: Config, list: seq<Assoc>, res: Obj, hits: Hits,
                                           d: Decorator, objs: Objs, nested: seq<seq<Obj>>)
    requires d.Compound? && SecondIds(config, list, hits, d.second) <= objs.Keys
    requires |nested| == |hits| && AllRead(config, list, hits, d.second, objs, nested)
    ensures Reached(config, list, res, hits, d, objs) == Joined(nested, res, d.finalType)
    decreases |hits|
  {
    if hits != [] {
      var n := |hits| - 1;
      forall k | 0 <= k < n ensures IsRead(objs, Second(config, list, hits[..n][k], d.second), nested[..n][k]) {
        assert IsRead(objs, Second(config, list, hits[k], d.second), nested[k]);
      }
      ReachedIsJoined(config, list, res, hits[..n], d, objs, nested[..n]);
    }
  }

  lemma {:induction false} SecondIdsAt(config: Config, list: seq<Assoc>, hits: Hits, pred: PredRef, i: nat)
    requires i < |hits|
    ensures Ids(Second(config, list, hits[i], pred)) <= SecondIds(config, list, hits, pred)
    decreases |hits|
  {
    var n := |hits| - 1;
    var front := hits[..n];
    assert SecondIds(config, list, hits, pred)
      == SecondIds(config, list, front, pred) + Ids(Second(config, list, hits[n], pred));
    if i < n {
      SecondIdsAt(config, list, front, pred, i);
      assert front[i] == hits[i];
    }
  }

  function ReadMult(objects: Objs, ids: set<string>): Option<Objs> {
    if ids <= objects.Keys then Some(map id | id in ids :: objects[id]) else None
  }

  ghost predicate Needed(config: Config, l0: seq<Assoc>, l1: seq<Assoc>, res: Obj, fields: seq<Field>, id: string) {
    exists f :: f in fields && id in FieldIds(config, l0, l1, res, f)
  }

  lemma NeedIds(config: Config, l0: seq<Assoc>, l1: seq<Assoc>, res: Obj, f: Field)
    ensures var need := NeedOf(config, l0, res, f);
      FieldIds(config, l0, l1, res, f)
        == if need.Some? then FirstIds(need.value) + SecondIdsOf(config, l1, need.value) else {}
  {
  }

  /** Exactly the ids that some field needs are collected. */
  lemma IdsCollected(config: Config, l0: seq<Assoc>, l1: seq<Assoc>, res: Obj, fields: seq<Field>, needs: seq<Need>)
    requires NeedsOf(config, l0, res, fields, needs)
    ensures forall id ::
      id in AllFirstIds(needs) + AllSecondIds(config, l1, needs) <==> Needed(config, l0, l1, res, fields, id)
  {
    forall id | Needed(config, l0, l1, res, fields, id)
      ensures id in AllFirstIds(needs) + AllSecondIds(config, l1, needs)
    {
      var f :| f in fields && id in FieldIds(config, l0, l1, res, f);
      NeedIds(config, l0, l1, res, f);
    }
    forall id | id in AllFirstIds(needs) + AllSecondIds(config, l1, needs)
      ensures Needed(config, l0, l1, res, fields, id)
    {
      var n :| n in needs && id in FirstIds(n) + SecondIdsOf(config, l1, n);
      NeedIds(config, l0, l1, res, n.field);
    }
  }

  ghost predicate FilledIn(config: Config, l0: seq<Assoc>, l1: seq<Assoc>, res: Obj, f: Field, objects: Objs,
      values: map<string, FieldValue>)
  {
    FieldIds(config, l0, l1, res, f) <= objects.Keys && Set(values, f.name, ValueOf(config, l0, l1, res, f, objects))
  }

  /** The fields in done are filled in, the others hold what they could be set to before anything was read. */
  ghost predicate FilledSoFar(config: Config, l0: seq<Assoc>, l1: seq<Assoc>, res: Obj, fields: seq<Field>,
                              objects: Objs, done: set<Field>, values: map<string, FieldValue>)
  {
    && (forall f | f in fields && f in done :: FilledIn(config, l0, l1, res, f, objects, values))
    && (forall f | f in fields && f !in done :: Set(values, f.name, DirectOf(config, l0, res, f)))
    && values.Keys <= Names(fields)
  }

  lemma FillsOneMore(config: Config, l0: seq<Assoc>, l1: seq<Assoc>, res: Obj, fields: seq<Field>, objects: Objs,
      done: set<Field>, values: map<string, FieldValue>, f: Field)
    requires Distinct(fields) && f in fields
    requires FilledSoFar(config, l0, l1, res, fields, objects, done, values)
    requires NeedOf(config, l0, res, f).Some? && FieldIds(config, l0, l1, res, f) <= objects.Keys
    ensures var v := ValueOf(config, l0, l1, res, f, objects);
      FilledSoFar(config, l0, l1, res, fields, objects, done
          + {f}, if v.Some? then values[f.name := v.value] else values)
  {
    var v := ValueOf(config, l0, l1, res, f, objects);
    var values' := if v.Some? then values[f.name := v.value] else values;
    if f !in done { assert Set(values, f.name, None); }
    forall g | g in fields && g != f ensures forall w :: Set(values, g.name, w) ==> Set(values', g.name, w) {}
  }

  lemma AllFilled(config: Config, l0: seq<Assoc>, l1: seq<Assoc>, res: Obj, fields: seq<Field>, needs: seq<Need>,
                  objects: Objs, done: set<Field>, values: map<string, FieldValue>)
    requires FilledSoFar(config, l0, l1, res, fields, objects, done, values)
    requires NeedsOf(config, l0, res, fields, needs) && forall j | 0 <= j < |needs| :: needs[j].field in done
    ensures forall f | f in fields :: FilledIn(config, l0, l1, res, f, objects, values)
  {
    forall f | f in fields && NeedOf(config, l0, res, f).Some? ensures f in done {
      var need := NeedOf(config, l0, res, f).value;
      var j :| 0 <= j < |needs| && needs[j] == need;
      assert need.field == f;
    }
  }

  /** Step 4: sets the fields that had needs. */
  method ApplyNeeds(ctx: Context, config: Config, ghost l0: seq<Assoc>, res: Obj, ghost fields: seq<Field>,
                    needs: seq<Need>, direct: map<string, FieldValue>, objs: Objs, ghost objects: Objs)
    returns (values: map<string, FieldValue>)
    requires ctx.Valid() && Distinct(fields) && NeedsOf(config, l0, res, fields, needs)
    requires DirectlySet(config, l0, res, fields, direct)
    requires AllFirstIds(needs) + AllSecondIds(config, ctx.loaded, needs) <= objs.Keys
    requires objs.Keys <= objects.Keys && forall id | id in objs :: objs[id] == objects[id]
    ensures forall f | f in fields :: FilledIn(config, l0, ctx.loaded, res, f, objects, values)
    ensures values.Keys <= Names(fields)
  {
    values := direct;
    ghost var done: set<Field> := {};
    for k := 0 to |needs|
      invariant forall j | 0 <= j < k :: needs[j].field in done
      invariant FilledSoFar(config, l0, ctx.loaded, res, fields, objects, done, values)
    {
      values := ApplyNext(ctx, config, l0, res, fields, needs, k, values, objs, objects, done);
      done := done + {needs[k].field};
    }
    AllFilled(config, l0, ctx.loaded, res, fields, needs, objects, done, values);
  }

  method ApplyNext(ctx: Context, config: Config, ghost l0: seq<Assoc>, res: Obj, ghost fields: seq<Field>,
                   needs: seq<Need>, k: nat, was: map<string, FieldValue>, objs: Objs, ghost objects: Objs,
                   ghost done: set<Field>)
    returns (values: map<string, FieldValue>)
    requires ctx.Valid() && Distinct(fields) && NeedsOf(config, l0, res, fields, needs) && k < |needs|
    requires AllFirstIds(needs) + AllSecondIds(config, ctx.loaded, needs) <= objs.Keys
    requires objs.Keys <= objects.Keys && forall id | id in objs :: objs[id] == objects[id]
    requires FilledSoFar(config, l0, ctx.loaded, res, fields, objects, done, was)
    ensures FilledSoFar(config, l0, ctx.loaded, res, fields, objects, done + {needs[k].field}, values)
  {
    NeedIdsRead(config, l0, ctx.loaded, res, fields, needs, k);
    var v := ApplyNeed(ctx, config, l0, res, needs[k], objs);
    AppliesNeed(config, l0, ctx.loaded, res, fields, needs, k, objs, objects, done, was);
    values := was;
    if v.Some? { values := values[needs[k].field.name := v.value]; }
  }

  lemma AppliesNeed(config: Config, l0: seq<Assoc>, l1: seq<Assoc>, res: Obj, fields: seq<Field>, needs: seq<Need>,
                    k: nat, objs: Objs, objects: Objs, done: set<Field>, values: map<string, FieldValue>)
    requires Distinct(fields) && NeedsOf(config, l0, res, fields, needs) && k < |needs|
    requires FilledSoFar(config, l0, l1, res, fields, objects, done, values)
    requires objs.Keys <= objects.Keys && forall id | id in objs :: objs[id] == objects[id]
    requires FieldIds(config, l0, l1, res, needs[k].field) <= objs.Keys
    ensures var f := needs[k].field; var v := ValueOf(config, l0, l1, res, f, objs);
      && NeedOf(config, l0, res, f) == Some(needs[k])
      && FilledSoFar(config, l0, l1, res, fields, objects, done
          + {f}, if v.Some? then values[f.name := v.value] else values)
  {
    var f := needs[k].field;
    assert needs[k] in needs;
    SameValue(config, l0, l1, res, f, objs, objects);
    FillsOneMore(config, l0, l1, res, fields, objects, done, values, f);
  }

  lemma NeedIdsRead(config: Config, l0: seq<Assoc>, l1: seq<Assoc>, res: Obj, fields: seq<Field>, needs: seq<Need>,
                    k: nat)
    requires k < |needs| && NeedsOf(config, l0, res, fields, needs)
    ensures NeedOf(config, l0, res, needs[k].field) == Some(needs[k])
    ensures FirstIds(needs[k]) + SecondIdsOf(config, l1, needs[k])
      <= AllFirstIds(needs) + AllSecondIds(config, l1, needs)
  {
    assert needs[k] in needs;
  }

  /** The associations loaded at the second level. */
  function SecondLoad(config: Config, l0: seq<Assoc>, res: Obj, fields: seq<Field>, store: seq<Assoc>): seq<Assoc> {
    Where(store, {}, SecondPairs(config, l0, res, fields))
  }

  function SecondPairs(config: Config, l0: seq<Assoc>, res: Obj, fields: seq<Field>): set<(string, string)> {
    set f, p | f in fields && p in FieldPairs(config, l0, res, f) :: p
  }

  function FieldPairs(config: Config, l0: seq<Assoc>, res: Obj, f: Field): set<(string, string)> {
    var need := NeedOf(config, l0, res, f);
    if need.Some? then Pairs(need.value) else {}
  }

  lemma PairsCollected(config: Config, l0: seq<Assoc>, res: Obj, fields: seq<Field>, needs: seq<Need>)
    requires NeedsOf(config, l0, res, fields, needs)
    ensures AllPairs(needs) == SecondPairs(config, l0, res, fields)
  {
    forall p | p in AllPairs(needs) ensures p in SecondPairs(config, l0, res, fields) {
      var n :| n in needs && p in Pairs(n);
      assert p in FieldPairs(config, l0, res, n.field);
    }
  }

  lemma {:induction false} WhereNothing(store: seq<Assoc>)
    ensures Where(store, {}, {}) == []
    decreases |store|
  {
    if store != [] { WhereNothing(store[..|store| - 1]); }
  }

  /** Steps 1 and 2: what the fields need, with the associations of the second level loaded. */
  method Prepare(ctx: Context, config: Config, res: Obj, fields: seq<Field>, store: seq<Assoc>)
    returns (needs: seq<Need>, ids: set<string>, values: map<string, FieldValue>)
    requires ctx.Valid() && Distinct(fields)
    modifies ctx
    ensures ctx.Valid()
    ensures ctx.loaded == old(ctx.loaded) + SecondLoad(config, old(ctx.loaded), res, fields, store)
    ensures NeedsOf(config, old(ctx.loaded), res, fields, needs)
      && DirectlySet(config, old(ctx.loaded), res, fields, values)
    ensures ids == AllFirstIds(needs) + AllSecondIds(config, ctx.loaded, needs)
  {
    ghost var l0 := ctx.loaded;
    var pairs;
    needs, ids, pairs, values := CollectNeeds(ctx, config, res, fields);
    PairsCollected(config, l0, res, fields, needs);
    if pairs != {} {
      ctx.AddAssociations(Where(store, {}, pairs));
      var more := CollectSecondIds(ctx, config, needs);
      ids := ids + more;
    } else {
      WhereNothing(store);
      NoSecondIds(config, l0, needs);
    }
  }

  /**
   * Sets the fields of an extended resource in batches: one pass notes the needs, then associations and
   * objects are read together. Every field holds what it gets when its associations are followed by linear
   * filter over all that is loaded and its objects are read one by one.
   */
  method SetObjectFieldValues(ctx: Context, config: Config, res: Obj, fields: seq<Field>, store: seq<Assoc>,
                              objects: Objs)
    returns (r: Result<map<string, FieldValue>>)
    requires ctx.Valid() && Distinct(fields)
    modifies ctx
    ensures ctx.Valid()
    ensures ctx.loaded == old(ctx.loaded) + SecondLoad(config, old(ctx.loaded), res, fields, store)
    ensures r.Failure? <==> exists id :: Needed(config, old(ctx.loaded), ctx.loaded, res, fields, id) && id !in objects
    ensures r.Success? ==> forall f | f in fields ::
      FilledIn(config, old(ctx.loaded), ctx.loaded, res, f, objects, r.value)
    ensures r.Success? ==> r.value.Keys <= Names(fields)
  {
    ghost var l0 := ctx.loaded;
    var needs, ids, values := Prepare(ctx, config, res, fields, store);
    IdsCollected(config, l0, ctx.loaded, res, fields, needs);
    var read := ReadMult(objects, ids);
    if read.None? {
      var id :| id in ids && id !in objects;
      return Failure;
    }
    values := ApplyNeeds(ctx, config, l0, res, fields, needs, values, read.value, objects);
    return Success(values);
  }
}
