/** The batches against the store: what extended resources hold (pyon/ion/resource.py). */
module StoredAssociations {
  import opened Wrappers
  import opened AssociationIndex
  import opened AssociationFill

  lemma {:induction false} SelectConcat(a: seq<Assoc>, b: seq<Assoc>, key: (string, string), backward: bool)
    ensures Select(a + b, key, backward) == Select(a, key, backward) + Select(b, key, backward)
    decreases |b|
  {
    if b == [] {
      assert a + b == a;
    } else {
      assert (a + b)[..|a + b| - 1] == a + b[..|b| - 1];
      SelectConcat(a, b[..|b| - 1], key, backward);
    }
  }

  lemma {:induction false} HitsAreListed(list: seq<Assoc>, types: set<string>, backward: bool, i: nat)
    requires i < |HitsOf(list, types, backward)|
    ensures var hit := HitsOf(list, types, backward)[i];
      hit.1 in list && hit.0 == if backward then hit.1.s else hit.1.o
    decreases |list|
  {
    var front := list[..|list| - 1];
    if i < |HitsOf(front, types, backward)| { HitsAreListed(front, types, backward, i); }
  }

  lemma {:induction false} SelectedAreListed(list: seq<Assoc>, key: (string, string), backward: bool, a: Assoc)
    requires a in Select(list, key, backward)
    ensures a in list && Key(a, backward) == key
    decreases |list|
  {
    var front := list[..|list| - 1];
    if a in Select(front, key, backward) { SelectedAreListed(front, key, backward, a); }
  }

  lemma {:induction false} WhereAreStored(store: seq<Assoc>, ids: set<string>, pairs: set<(string, string)>, a: Assoc)
    requires a in Where(store, ids, pairs)
    ensures a in store && (a.s in ids || a.o in ids || Key(a, false) in pairs || Key(a, true) in pairs)
    decreases |store|
  {
    var front := store[..|store| - 1];
    if a in Where(front, ids, pairs) { WhereAreStored(front, ids, pairs, a); }
  }

  /** The other end of an association between two given resources. */
  lemma FollowEnds(list: seq<Assoc>, id: string, pred: string, types: set<string>, backward: bool, i: nat)
    requires i < |Follow(list, id, pred, types, backward)|
    ensures var hit := Follow(list, id, pred, types, backward)[i];
      && hit.1 in list && Key(hit.1, backward) == (id, pred)
      && hit.0 == if backward then hit.1.s else hit.1.o
  {
    HitsAreListed(Select(list, (id, pred), backward), types, backward, i);
    SelectedAreListed(list, (id, pred), backward, Follow(list, id, pred, types, backward)[i].1);
  }

  /** Loading by id, or by id and predicate, and looking up later can be exchanged. */
  lemma {:induction false} SelectWhere(store: seq<Assoc>, ids: set<string>, pairs: set<(string, string)>,
                                       key: (string, string), backward: bool)
    ensures Select(Where(store, ids, pairs), key, backward) == Where(Select(store, key, backward), ids, pairs)
    decreases |store|
  {
    if store != [] {
      var n := |store| - 1;
      SelectWhere(store[..n], ids, pairs, key, backward);
      var rest := Where(store[..n], ids, pairs);
      var found := Select(store[..n], key, backward);
      SelectSnoc(rest, store[n], key, backward);
      WhereSnoc(found, store[n], ids, pairs);
      assert Where(store, ids, pairs) == rest + (if Matches(store[n], ids, pairs) then [store[n]] else []);
      assert found + [] == found && rest + [] == rest;
    }
  }

  lemma WhereSnoc(list: seq<Assoc>, a: Assoc, ids: set<string>, pairs: set<(string, string)>)
    ensures Where(list + [a], ids, pairs) == Where(list, ids, pairs) + (if Matches(a, ids, pairs) then [a] else [])
  {
    assert (list + [a])[..|list|] == list;
  }

  predicate Matches(a: Assoc, ids: set<string>, pairs: set<(string, string)>) {
    a.s in ids || a.o in ids || Key(a, false) in pairs || Key(a, true) in pairs
  }

  lemma {:induction false} WhereAll(list: seq<Assoc>, ids: set<string>, pairs: set<(string, string)>)
    requires forall a | a in list :: Matches(a, ids, pairs)
    ensures Where(list, ids, pairs) == list
    decreases |list|
  {
    if list != [] {
      var n := |list| - 1;
      WhereAll(list[..n], ids, pairs);
      assert list == list[..n] + [list[n]] && Matches(list[n], ids, pairs);
    }
  }

  /** Every association leads between resources that can be read, and the resource itself can be. */
  ghost predicate Readable(store: seq<Assoc>, objs: Objs, res: Obj) {
    && (forall a | a in store :: a.s in objs && a.o in objs)
    && res.id in objs && objs[res.id] == res
  }

  // ------------------------------------------------- what leads on from a target

  datatype Links = Links(assocs: seq<Assoc>, backward: bool)

  function Hit(links: Links): Hits { HitsOf(links.assocs, {}, links.backward) }

  /** The associations of a target that following a predicate in the store takes. */
  function LinksOf(config: Config, store: seq<Assoc>, hit: (string, Assoc), pred: PredRef): Links {
    var key := (hit.0, pred.name);
    match RouteOf(config, pred, TypeAt(hit))
    case Out => Links(Select(store, key, false), false)
    case In => Links(Select(store, key, true), true)
    case OutThenIn =>
      var out := Select(store, key, false);
      if out != [] then Links(out, false) else Links(Select(store, key, true), true)
    case Nowhere => Links([], false)
  }

  lemma {:induction false} HitsOfAll(list: seq<Assoc>, backward: bool)
    ensures |HitsOf(list, {}, backward)| == |list|
    decreases |list|
  {
    if list != [] { HitsOfAll(list[..|list| - 1], backward); }
  }

  lemma SecondIsHit(config: Config, store: seq<Assoc>, hit: (string, Assoc), pred: PredRef)
    ensures Second(config, store, hit, pred) == Hit(LinksOf(config, store, hit, pred))
  {
    HitsOfAll(Select(store, (hit.0, pred.name), false), false);
  }

  lemma LinksKeyed(config: Config, store: seq<Assoc>, hit: (string, Assoc), pred: PredRef, a: Assoc)
    requires a in LinksOf(config, store, hit, pred).assocs
    ensures a in store && Key(a, LinksOf(config, store, hit, pred).backward) == (hit.0, pred.name)
  {
    var links := LinksOf(config, store, hit, pred);
    SelectedAreListed(store, (hit.0, pred.name), links.backward, a);
  }

  /** What is loaded: the associations of the resource, then those by target and predicate. */
  function Loaded(store: seq<Assoc>, res: Obj, pairs: set<(string, string)>): seq<Assoc> {
    Where(store, {res.id}, {}) + Where(store, {}, pairs)
  }

  /** Of the links, those of the resource and then those loaded at the second level, some maybe again. */
  function LoadedOf(links: Links, res: Obj, pairs: set<(string, string)>): Links {
    links.(assocs := Loaded(links.assocs, res, pairs))
  }

  lemma SelectLoaded(store: seq<Assoc>, res: Obj, pairs: set<(string, string)>, key: (string, string), backward: bool)
    ensures Select(Loaded(store, res, pairs), key, backward) == Loaded(Select(store, key, backward), res, pairs)
  {
    SelectConcat(Where(store, {res.id}, {}), Where(store, {}, pairs), key, backward);
    SelectWhere(store, {res.id}, {}, key, backward);
    SelectWhere(store, {}, pairs, key, backward);
  }

  /** Following a predicate in what is loaded takes the loaded ones of the links it takes in the store. */
  lemma SecondLoaded(config: Config, store: seq<Assoc>, res: Obj, pairs: set<(string, string)>, hit: (string, Assoc),
                     pred: PredRef)
    requires pred.direction == Either ==> (hit.0, pred.name) in pairs
    ensures Second(config, Loaded(store, res, pairs), hit, pred)
      == Hit(LoadedOf(LinksOf(config, store, hit, pred), res, pairs))
  {
    var key, list := (hit.0, pred.name), Loaded(store, res, pairs);
    SecondIsHit(config, list, hit, pred);
    SelectLoaded(store, res, pairs, key, false);
    SelectLoaded(store, res, pairs, key, true);
    var out := Select(store, key, false);
    if RouteOf(config, pred, TypeAt(hit)) == OutThenIn {
      forall a | a in out ensures Matches(a, {}, pairs) { SelectedAreListed(store, key, false, a); }
      WhereAll(out, {}, pairs);
    }
    assert Loaded([], res, pairs) == [];
  }

  // ------------------------------------------------- what a target contributes

  /** A compound field of a resource, and the pairs loaded for all its fields. */
  datatype Search = Search(config: Config, store: seq<Assoc>, res: Obj, pairs: set<(string, string)>, d: Decorator,
      objs: Objs)

  ghost predicate Proper(q: Search) { q.d.Compound? && Readable(q.store, q.objs, q.res) }

  function End(a: Assoc, backward: bool): string { if backward then a.s else a.o }

  /** The association ends at an object of another type than the resource, and of the final type. */
  predicate Counts(q: Search, a: Assoc, backward: bool) {
    && q.d.Compound? && End(a, backward) in q.objs && q.objs[End(a, backward)].typ != q.res.typ
    && (q.d.finalType.Some? ==> q.d.finalType.value in q.objs[End(a, backward)].bases)
  }

  function Kept(q: Search, links: Links): seq<Obj>
    decreases |links.assocs|
  {
    if links.assocs == [] then []
    else
      var n := |links.assocs| - 1;
      var a := links.assocs[n];
      Kept(q, links.(assocs := links.assocs[..n]))
        + (if Counts(q, a, links.backward) then [q.objs[End(a, links.backward)]] else [])
  }

  lemma {:induction false} KeepIsKept(q: Search, links: Links)
    requires Proper(q) && forall a | a in links.assocs :: a in q.store
    ensures Ids(Hit(links)) <= q.objs.Keys
    ensures Keep(Read(q.objs, Hit(links)), q.res, q.d.finalType) == Kept(q, links)
    decreases |links.assocs|
  {
    if links.assocs != [] {
      var n := |links.assocs| - 1;
      var a, front := links.assocs[n], links.(assocs := links.assocs[..n]);
      KeepIsKept(q, front);
      var hits := Hit(links);
      assert hits == Hit(front) + [(End(a, links.backward), a)];
      forall i | 0 <= i < |hits| ensures hits[i].0 in q.objs {
        if i < |hits| - 1 { assert hits[i] == Hit(front)[i] && hits[i].0 in Ids(Hit(front)); }
      }
      var read := Read(q.objs, hits);
      assert read[..|read| - 1] == Read(q.objs, Hit(front));
    }
  }

  lemma {:induction false} KeptConcat(q: Search, a: seq<Assoc>, b: seq<Assoc>, backward: bool)
    ensures Kept(q, Links(a + b, backward)) == Kept(q, Links(a, backward)) + Kept(q, Links(b, backward))
    decreases |b|
  {
    if b == [] {
      assert a + b == a;
    } else {
      assert (a + b)[..|a + b| - 1] == a + b[..|b| - 1];
      KeptConcat(q, a, b[..|b| - 1], backward);
    }
  }

  /** What the second level loads of the links. */
  function Again(q: Search, links: Links): seq<Obj> { Kept(q, links.(assocs := Where(links.assocs, {}, q.pairs))) }

  /** The way back to the resource is filtered out by its type. */
  lemma {:induction false} BackIsNotKept(q: Search, links: Links)
    requires Proper(q) && forall a | a in links.assocs :: End(a, links.backward) == q.res.id
    ensures Kept(q, links) == []
    decreases |links.assocs|
  {
    if links.assocs != [] { BackIsNotKept(q, links.(assocs := links.assocs[..|links.assocs| - 1])); }
  }

  function LinksOn(q: Search, hit: (string, Assoc)): Links
    requires q.d.Compound?
  {
    LinksOf(q.config, q.store, hit, q.d.second)
  }

  /** What a target contributes when its associations are followed in the store, and when they are in what is loaded. */
  function Once(q: Search, hit: (string, Assoc)): seq<Obj>
    requires q.d.Compound?
  {
    Kept(q, LinksOn(q, hit))
  }

  function Batched(q: Search, hit: (string, Assoc)): seq<Obj>
    requires q.d.Compound?
  {
    (if hit.0 == q.res.id then Once(q, hit) else []) + Again(q, LinksOn(q, hit))
  }

  lemma KeptLoaded(q: Search, hit: (string, Assoc))
    requires Proper(q)
    ensures Kept(q, LoadedOf(LinksOn(q, hit), q.res, q.pairs)) == Batched(q, hit)
  {
    var links := LinksOn(q, hit);
    var own := Where(links.assocs, {q.res.id}, {});
    KeptConcat(q, own, Where(links.assocs, {}, q.pairs), links.backward);
    forall a | a in links.assocs ensures Key(a, links.backward).0 == hit.0 {
      LinksKeyed(q.config, q.store, hit, q.d.second, a);
    }
    if hit.0 == q.res.id {
      WhereAll(links.assocs, {q.res.id}, {});
    } else {
      forall a | a in own ensures End(a, links.backward) == q.res.id {
        WhereAreStored(links.assocs, {q.res.id}, {}, a);
      }
      BackIsNotKept(q, links.(assocs := own));
    }
  }

  lemma ContributionStored(q: Search, hit: (string, Assoc))
    requires Proper(q)
    ensures var second := Second(q.config, q.store, hit, q.d.second);
      Ids(second) <= q.objs.Keys && Keep(Read(q.objs, second), q.res, q.d.finalType) == Once(q, hit)
  {
    var links := LinksOn(q, hit);
    SecondIsHit(q.config, q.store, hit, q.d.second);
    forall a | a in links.assocs ensures a in q.store { LinksKeyed(q.config, q.store, hit, q.d.second, a); }
    KeepIsKept(q, links);
  }

  lemma ContributionLoaded(q: Search, hit: (string, Assoc))
    requires Proper(q) && (q.d.second.direction == Either ==> (hit.0, q.d.second.name) in q.pairs)
    ensures var second := Second(q.config, Loaded(q.store, q.res, q.pairs), hit, q.d.second);
      Ids(second) <= q.objs.Keys && Keep(Read(q.objs, second), q.res, q.d.finalType) == Batched(q, hit)
  {
    var links := LinksOn(q, hit);
    SecondLoaded(q.config, q.store, q.res, q.pairs, hit, q.d.second);
    forall a | a in Loaded(links.assocs, q.res, q.pairs) ensures a in q.store {
      if a in Where(links.assocs, {q.res.id}, {}) {
        WhereAreStored(links.assocs, {q.res.id}, {}, a);
      } else {
        WhereAreStored(links.assocs, {}, q.pairs, a);
      }
      LinksKeyed(q.config, q.store, hit, q.d.second, a);
    }
    KeepIsKept(q, LoadedOf(links, q.res, q.pairs));
    KeptLoaded(q, hit);
  }

  // ------------------------------------------------- what all targets contribute

  function AllOnce(q: Search, hits: Hits): seq<Obj>
    requires q.d.Compound?
  {
    if hits == [] then [] else AllOnce(q, hits[..|hits| - 1]) + Once(q, hits[|hits| - 1])
  }

  function AllBatched(q: Search, hits: Hits): seq<Obj>
    requires q.d.Compound?
  {
    if hits == [] then [] else AllBatched(q, hits[..|hits| - 1]) + Batched(q, hits[|hits| - 1])
  }

  lemma {:induction false} ReachedStored(q: Search, hits: Hits)
    requires Proper(q)
    ensures SecondIds(q.config, q.store, hits, q.d.second) <= q.objs.Keys
    ensures Reached(q.config, q.store, q.res, hits, q.d, q.objs) == AllOnce(q, hits)
    decreases |hits|
  {
    if hits != [] {
      ReachedStored(q, hits[..|hits| - 1]);
      ContributionStored(q, hits[|hits| - 1]);
    }
  }

  /** What the batches reach is told by the store and the pairs loaded. */
  lemma {:induction false} ReachedLoaded(q: Search, hits: Hits)
    requires Proper(q)
    requires q.d.second.direction == Either ==> forall i | 0 <= i < |hits| :: (hits[i].0, q.d.second.name) in q.pairs
    ensures SecondIds(q.config, Loaded(q.store, q.res, q.pairs), hits, q.d.second) <= q.objs.Keys
    ensures Reached(q.config, Loaded(q.store, q.res, q.pairs), q.res, hits, q.d, q.objs) == AllBatched(q, hits)
    decreases |hits|
  {
    if hits != [] {
      ReachedLoaded(q, hits[..|hits| - 1]);
      ContributionLoaded(q, hits[|hits| - 1]);
    }
  }

  function First(objs: seq<Obj>): Option<Obj> { if objs == [] then None else Some(objs[0]) }

  // ------------------------------------------------- what is missed and what is found twice

  /** An association that counts, taken from a target to an object. */
  datatype Reach = Reach(target: string, assoc: Assoc, obj: Obj)

  /** The associations that count, of one target and of all, in the order in which they are followed. */
  function Reaches(q: Search, target: string, links: Links): seq<Reach>
    decreases |links.assocs|
  {
    if links.assocs == [] then []
    else
      var n := |links.assocs| - 1;
      var a := links.assocs[n];
      Reaches(q, target, links.(assocs := links.assocs[..n]))
        + (if Counts(q, a, links.backward) then [Reach(target, a, q.objs[End(a, links.backward)])] else [])
  }

  function AllReaches(q: Search, hits: Hits): seq<Reach>
    requires q.d.Compound?
  {
    if hits == [] then []
    else var hit := hits[|hits| - 1]; AllReaches(q, hits[..|hits| - 1]) + Reaches(q, hit.0, LinksOn(q, hit))
  }

  /** A target leads to an object by an association that counts. */
  predicate Leads(q: Search, hit: (string, Assoc), r: Reach)
    requires q.d.Compound?
  {
    var links := LinksOn(q, hit);
    && r.target == hit.0 && r.assoc in links.assocs && Counts(q, r.assoc, links.backward)
    && r.obj == q.objs[End(r.assoc, links.backward)]
  }

  lemma {:induction false} ReachesHave(q: Search, target: string, links: Links, r: Reach)
    ensures r in Reaches(q, target, links)
      <==>
        && r.target == target && r.assoc in links.assocs && Counts(q, r.assoc, links.backward)
        && r.obj == q.objs[End(r.assoc, links.backward)]
    decreases |links.assocs|
  {
    if links.assocs != [] {
      var n := |links.assocs| - 1;
      ReachesHave(q, target, links.(assocs := links.assocs[..n]), r);
      assert r.assoc in links.assocs <==> r.assoc in links.assocs[..n] || r.assoc == links.assocs[n];
    }
  }

  lemma {:induction false} AllReachesHave(q: Search, hits: Hits, r: Reach)
    requires q.d.Compound?
    ensures r in AllReaches(q, hits) <==> exists hit :: hit in hits && Leads(q, hit, r)
    decreases |hits|
  {
    if hits != [] {
      var n := |hits| - 1;
      AllReachesHave(q, hits[..n], r);
      ReachesHave(q, hits[n].0, LinksOn(q, hits[n]), r);
      assert r in AllReaches(q, hits) <==> r in AllReaches(q, hits[..n]) || Leads(q, hits[n], r);
      assert forall hit :: hit in hits <==> hit in hits[..n] || hit == hits[n];
    }
  }

  /**
   * What is loaded of them: those of the resource itself, and those loaded by target and predicate. Others are
   * missed, and those that are loaded for both reasons are found twice.
   */
  datatype Part = Own | Seen | Missed | SeenTwice

  predicate In(q: Search, part: Part, r: Reach) {
    var own, paired := r.target == q.res.id, Matches(r.assoc, {}, q.pairs);
    match part
    case Own => own
    case Seen => own || paired
    case Missed => !own && !paired
    case SeenTwice => own && paired
  }

  function Only(q: Search, part: Part, rs: seq<Reach>): seq<Reach>
    decreases |rs|
  {
    if rs == [] then []
    else
      var r := rs[|rs| - 1];
      Only(q, part, rs[..|rs| - 1]) + (if In(q, part, r) then [r] else [])
  }

  lemma {:induction false} OnlyHas(q: Search, part: Part, rs: seq<Reach>)
    ensures forall r :: r in Only(q, part, rs) <==> r in rs && In(q, part, r)
    ensures Only(q, part, rs) == [] <==> forall r | r in rs :: !In(q, part, r)
    decreases |rs|
  {
    if rs != [] {
      var front, last := rs[..|rs| - 1], rs[|rs| - 1];
      OnlyHas(q, part, front);
      assert forall r :: r in rs <==> r in front || r == last;
    }
  }

  lemma OnlySnoc(q: Search, part: Part, rs: seq<Reach>, r: Reach)
    ensures Only(q, part, rs + [r]) == if In(q, part, r) then Only(q, part, rs) + [r] else Only(q, part, rs)
  {
    assert (rs + [r])[..|rs|] == rs;
  }

  function Found(rs: seq<Reach>): seq<Obj> { seq(|rs|, i requires 0 <= i < |rs| => rs[i].obj) }

  lemma {:induction false} OnlyConcat(q: Search, part: Part, a: seq<Reach>, b: seq<Reach>)
    ensures Only(q, part, a + b) == Only(q, part, a) + Only(q, part, b)
    decreases |b|
  {
    if b == [] {
      assert a + b == a;
    } else {
      var n := |b| - 1;
      assert a + b == (a + b[..n]) + [b[n]] && b == b[..n] + [b[n]];
      OnlyConcat(q, part, a, b[..n]);
      OnlySnoc(q, part, a + b[..n], b[n]);
      OnlySnoc(q, part, b[..n], b[n]);
    }
  }

  /** Whatever is not missed is seen. */
  lemma {:induction false} SeenOrMissed(q: Search, rs: seq<Reach>)
    ensures multiset(Found(rs)) == multiset(Found(Only(q, Seen, rs))) + multiset(Found(Only(q, Missed, rs)))
    decreases |rs|
  {
    if rs != [] {
      var front, r := rs[..|rs| - 1], rs[|rs| - 1];
      var seen, missed := Only(q, Seen, front), Only(q, Missed, front);
      SeenOrMissed(q, front);
      assert rs == front + [r];
      FoundSnoc(front, r);
      if In(q, Seen, r) {
        assert Only(q, Seen, rs) == seen + [r] && Only(q, Missed, rs) == missed;
        FoundSnoc(seen, r);
      } else {
        assert Only(q, Seen, rs) == seen && Only(q, Missed, rs) == missed + [r];
        FoundSnoc(missed, r);
      }
    }
  }

  lemma {:induction false} AllSeen(q: Search, rs: seq<Reach>)
    requires forall r | r in rs :: In(q, Seen, r)
    ensures Only(q, Seen, rs) == rs
    decreases |rs|
  {
    if rs != [] {
      AllSeen(q, rs[..|rs| - 1]);
      assert rs == rs[..|rs| - 1] + [rs[|rs| - 1]];
    }
  }

  lemma FoundSnoc(rs: seq<Reach>, r: Reach)
    ensures Found(rs + [r]) == Found(rs) + [r.obj]
    ensures multiset(Found(rs + [r])) == multiset(Found(rs)) + multiset{r.obj}
  {
  }

  lemma {:induction false} KeptAreFound(q: Search, target: string, links: Links)
    ensures Kept(q, links) == Found(Reaches(q, target, links))
    decreases |links.assocs|
  {
    if links.assocs != [] {
      var n := |links.assocs| - 1;
      var a, front := links.assocs[n], links.(assocs := links.assocs[..n]);
      KeptAreFound(q, target, front);
      if Counts(q, a, links.backward) {
        FoundSnoc(Reaches(q, target, front), Reach(target, a, q.objs[End(a, links.backward)]));
      }
    }
  }

  lemma ReachesSnoc(q: Search, target: string, list: seq<Assoc>, a: Assoc, backward: bool)
    ensures var rs := Reaches(q, target, Links(list, backward));
      Reaches(q, target, Links(list + [a], backward))
        == if Counts(q, a, backward) then rs + [Reach(target, a, q.objs[End(a, backward)])] else rs
  {
    assert (list + [a])[..|list|] == list;
  }

  /** What the second level loads of a target is seen, and seen twice if it is the resource itself. */
  function LoadedPart(q: Search, target: string): Part { if target == q.res.id then SeenTwice else Seen }

  lemma {:induction false} AgainAreOnly(q: Search, target: string, list: seq<Assoc>, backward: bool)
    ensures Reaches(q, target, Links(Where(list, {}, q.pairs), backward))
      == Only(q, LoadedPart(q, target), Reaches(q, target, Links(list, backward)))
    decreases |list|
  {
    if list != [] {
      var front, a := list[..|list| - 1], list[|list| - 1];
      AgainAreOnly(q, target, front, backward);
      assert list == front + [a];
      AgainSnoc(q, target, front, a, backward);
    }
  }

  lemma AgainSnoc(q: Search, target: string, front: seq<Assoc>, a: Assoc, backward: bool)
    requires Reaches(q, target, Links(Where(front, {}, q.pairs), backward))
      == Only(q, LoadedPart(q, target), Reaches(q, target, Links(front, backward)))
    ensures Reaches(q, target, Links(Where(front + [a], {}, q.pairs), backward))
      == Only(q, LoadedPart(q, target), Reaches(q, target, Links(front + [a], backward)))
  {
    var loaded, rs := Where(front, {}, q.pairs), Reaches(q, target, Links(front, backward));
    WhereSnoc(front, a, {}, q.pairs);
    ReachesSnoc(q, target, front, a, backward);
    if Counts(q, a, backward) {
      OnlySnoc(q, LoadedPart(q, target), rs, Reach(target, a, q.objs[End(a, backward)]));
    }
    if Matches(a, {}, q.pairs) {
      ReachesSnoc(q, target, loaded, a, backward);
    } else {
      assert Where(front + [a], {}, q.pairs) == loaded;
    }
  }

  lemma SeenOfTarget(q: Search, target: string, links: Links)
    ensures var rs := Reaches(q, target, links);
      if target == q.res.id then Only(q, Seen, rs) == rs else Only(q, SeenTwice, rs) == []
  {
    var rs := Reaches(q, target, links);
    forall r | r in rs ensures r.target == target { ReachesHave(q, target, links, r); }
    if target == q.res.id { AllSeen(q, rs); } else { OnlyHas(q, SeenTwice, rs); }
  }

  /** The batches find on a target what is seen, and then what is seen twice. */
  lemma BatchedAreFound(q: Search, hit: (string, Assoc))
    requires q.d.Compound?
    ensures var rs := Reaches(q, hit.0, LinksOn(q, hit));
      && Once(q, hit) == Found(rs)
      && Batched(q, hit) == Found(Only(q, Seen, rs)) + Found(Only(q, SeenTwice, rs))
  {
    var links := LinksOn(q, hit);
    KeptAreFound(q, hit.0, links);
    KeptAreFound(q, hit.0, links.(assocs := Where(links.assocs, {}, q.pairs)));
    AgainAreOnly(q, hit.0, links.assocs, links.backward);
    SeenOfTarget(q, hit.0, links);
  }

  lemma FoundConcat(a: seq<Reach>, b: seq<Reach>)
    ensures Found(a + b) == Found(a) + Found(b)
  {
  }

  lemma {:induction false} OnceAreFound(q: Search, hits: Hits)
    requires q.d.Compound?
    ensures AllOnce(q, hits) == Found(AllReaches(q, hits))
    decreases |hits|
  {
    if hits != [] {
      var hit := hits[|hits| - 1];
      OnceAreFound(q, hits[..|hits| - 1]);
      BatchedAreFound(q, hit);
      FoundConcat(AllReaches(q, hits[..|hits| - 1]), Reaches(q, hit.0, LinksOn(q, hit)));
    }
  }

  /** The batches find what is seen, and again what is seen twice. */
  lemma {:induction false} AllBatchedAreFound(q: Search, hits: Hits)
    requires q.d.Compound?
    ensures var all := AllReaches(q, hits);
      && multiset(AllBatched(q, hits)) == multiset(Found(Only(q, Seen, all))) + multiset(Found(Only(q, SeenTwice, all)))
      && First(AllBatched(q, hits)) == First(Found(Only(q, Seen, all)))
      && (Only(q, SeenTwice, all) == [] ==> AllBatched(q, hits) == Found(Only(q, Seen, all)))
    decreases |hits|
  {
    if hits != [] {
      var front, hit := hits[..|hits| - 1], hits[|hits| - 1];
      var all, rs := AllReaches(q, front), Reaches(q, hit.0, LinksOn(q, hit));
      AllBatchedAreFound(q, front);
      BatchedAreFound(q, hit);
      OnlyConcat(q, Seen, all, rs);
      OnlyConcat(q, SeenTwice, all, rs);
      NoneTwiceUnseen(q, rs);
      JoinFound(AllBatched(q, front), Only(q, Seen, all), Only(q, SeenTwice, all), Only(q, Seen, rs),
                Only(q, SeenTwice, rs));
    }
  }

  lemma JoinFound(found: seq<Obj>, seen: seq<Reach>, twice: seq<Reach>, seen': seq<Reach>, twice': seq<Reach>)
    requires multiset(found) == multiset(Found(seen)) + multiset(Found(twice)) && First(found) == First(Found(seen))
    requires twice == [] ==> found == Found(seen)
    requires seen' == [] ==> twice' == []
    ensures var more := found + (Found(seen') + Found(twice'));
      && multiset(more) == multiset(Found(seen + seen')) + multiset(Found(twice + twice'))
      && First(more) == First(Found(seen + seen'))
      && (twice + twice' == [] ==> more == Found(seen + seen'))
  {
    FoundConcat(seen, seen');
    FoundConcat(twice, twice');
  }

  lemma NoneTwiceUnseen(q: Search, rs: seq<Reach>)
    ensures Only(q, Seen, rs) == [] ==> Only(q, SeenTwice, rs) == []
  {
    OnlyHas(q, Seen, rs);
    OnlyHas(q, SeenTwice, rs);
  }

  /** The batches find what the store has, less what is missed, and what is seen twice once more. */
  lemma LostAndRepeated(q: Search, hits: Hits)
    requires q.d.Compound?
    ensures var all := AllReaches(q, hits);
      && multiset(AllBatched(q, hits)) + multiset(Found(Only(q, Missed, all)))
        == multiset(AllOnce(q, hits)) + multiset(Found(Only(q, SeenTwice, all)))
      && |AllBatched(q, hits)| + |Only(q, Missed, all)| == |AllOnce(q, hits)| + |Only(q, SeenTwice, all)|
  {
    var all := AllReaches(q, hits);
    OnceAreFound(q, hits);
    AllBatchedAreFound(q, hits);
    SeenOrMissed(q, all);
    var one, two := AllBatched(q, hits), AllOnce(q, hits);
    assert |multiset(one)| == |one| && |multiset(two)| == |two|;
    var missed, twice := Found(Only(q, Missed, all)), Found(Only(q, SeenTwice, all));
    assert |multiset(missed)| == |missed| && |multiset(twice)| == |twice|;
    assert |multiset(one) + multiset(missed)| == |multiset(two) + multiset(twice)|;
  }

  lemma FirstLoaded(config: Config, store: seq<Assoc>, res: Obj, d: Decorator)
    ensures FirstHits(config, Where(store, {res.id}, {}), res, d) == FirstHits(config, store, res, d)
  {
    var pred := if d.Single? then d.pred else d.first;
    OwnLinks(store, res, (res.id, pred.name), false);
    OwnLinks(store, res, (res.id, pred.name), true);
  }

  lemma OwnLinks(store: seq<Assoc>, res: Obj, key: (string, string), backward: bool)
    requires key.0 == res.id
    ensures Select(Where(store, {res.id}, {}), key, backward) == Select(store, key, backward)
  {
    SelectWhere(store, {res.id}, {}, key, backward);
    forall a | a in Select(store, key, backward) ensures Matches(a, {res.id}, {}) {
      SelectedAreListed(store, key, backward, a);
    }
    WhereAll(Select(store, key, backward), {res.id}, {});
  }

  lemma FirstReadable(config: Config, store: seq<Assoc>, objs: Objs, res: Obj, d: Decorator)
    requires Readable(store, objs, res)
    ensures Ids(FirstHits(config, store, res, d)) <= objs.Keys
  {
    var pred := if d.Single? then d.pred else d.first;
    forall backward, i | 0 <= i < |Follow(store, res.id, pred.name, d.types, backward)|
      ensures Follow(store, res.id, pred.name, d.types, backward)[i].0 in objs
    {
      FollowEnds(store, res.id, pred.name, d.types, backward, i);
    }
  }

  // ------------------------------------------------- the fields

  /** The search for a compound field among the fields of a resource. */
  function SearchFor(config: Config, store: seq<Assoc>, res: Obj, fields: seq<Field>, f: Field, objs: Objs): Search {
    Search(config, store, res, SecondPairs(config, Where(store, {res.id}, {}), res, fields), f.decorator, objs)
  }

  /**
   * A target and a predicate are loaded together if some field spells the predicate so and has the target at its
   * first level.
   */
  lemma PairCovered(config: Config, store: seq<Assoc>, res: Obj, fields: seq<Field>, t: string, pred: string)
    ensures (t, pred) in SecondPairs(config, Where(store, {res.id}, {}), res, fields) <==>
      exists g :: g in fields && g.decorator.Compound? && Raw(g.decorator.second) == pred
        && t in Ids(FirstHits(config, store, res, g.decorator))
  {
    var l0 := Where(store, {res.id}, {});
    forall g | g in fields
      ensures FirstHits(config, l0, res, g.decorator) == FirstHits(config, store, res, g.decorator)
    {
      FirstLoaded(config, store, res, g.decorator);
    }
    if (t, pred) in SecondPairs(config, l0, res, fields) {
      var g :| g in fields && (t, pred) in FieldPairs(config, l0, res, g);
      assert g.decorator.Compound? && Raw(g.decorator.second) == pred;
    }
    forall g | g in fields && g.decorator.Compound? && Raw(g.decorator.second) == pred
      && t in Ids(FirstHits(config, store, res, g.decorator))
      ensures (t, pred) in FieldPairs(config, l0, res, g)
    {
    }
  }

  /** A field loads an association at the second level: it has one of its ends as a target, and spells it so. */
  predicate Loads(config: Config, store: seq<Assoc>, res: Obj, g: Field, a: Assoc) {
    && g.decorator.Compound? && Raw(g.decorator.second) == a.p
    && var targets := Ids(FirstHits(config, store, res, g.decorator)); a.s in targets || a.o in targets
  }

  lemma LoadedByFields(config: Config, store: seq<Assoc>, res: Obj, fields: seq<Field>, f: Field, objs: Objs, a: Assoc)
    ensures Matches(a, {}, SearchFor(config, store, res, fields, f, objs).pairs)
      <==> exists g :: g in fields && Loads(config, store, res, g, a)
  {
    PairCovered(config, store, res, fields, a.s, a.p);
    PairCovered(config, store, res, fields, a.o, a.p);
    if g :| g in fields && Loads(config, store, res, g, a) {
      var ids := Ids(FirstHits(config, store, res, g.decorator));
      assert (a.s in ids ==> Key(a, false) in SearchFor(config, store, res, fields, f, objs).pairs)
        && (a.o in ids ==> Key(a, true) in SearchFor(config, store, res, fields, f, objs).pairs);
    }
  }

  /** No object is both missed and found twice. */
  ghost predicate Apart(q: Search, all: seq<Reach>) {
    forall r, s | r in all && s in all && In(q, Missed, r) && In(q, SeenTwice, s) :: r.obj != s.obj
  }

  /** The objects missed are the objects found twice, each as often. */
  predicate Balanced(q: Search, all: seq<Reach>) {
    multiset(Found(Only(q, Missed, all))) == multiset(Found(Only(q, SeenTwice, all)))
  }

  /**
   * When the batches give a compound field its value. A count: as many associations are missed as are seen twice.
   * A list: none is missed or seen twice, so each belongs to the resource or is loaded by a field, and not both.
   * A single object: the first is seen, or the first that is seen leads to the same object.
   */
  ghost predicate Agrees(q: Search, kind: Kind, all: seq<Reach>) {
    match kind
    case IntField => |Only(q, Missed, all)| == |Only(q, SeenTwice, all)|
    case ListField => forall r | r in all :: r.target == q.res.id <==> !Matches(r.assoc, {}, q.pairs)
    case ObjectField =>
      all == [] || In(q, Seen, all[0]) || (Only(q, Seen, all) != [] && Only(q, Seen, all)[0].obj == all[0].obj)
  }

  lemma {:induction false} FirstSeen(q: Search, rs: seq<Reach>)
    requires rs != [] && In(q, Seen, rs[0])
    ensures Only(q, Seen, rs) != [] && Only(q, Seen, rs)[0] == rs[0]
    decreases |rs|
  {
    if |rs| > 1 { FirstSeen(q, rs[..|rs| - 1]); }
  }

  lemma AgreesIfNoneMissed(q: Search, all: seq<Reach>)
    ensures Agrees(q, ListField, all) <==> Only(q, Missed, all) == [] && Only(q, SeenTwice, all) == []
    ensures Agrees(q, ListField, all) ==> Only(q, Seen, all) == all
  {
    OnlyHas(q, Missed, all);
    OnlyHas(q, SeenTwice, all);
    if Agrees(q, ListField, all) { AllSeen(q, all); }
  }

  /** A list comes out the same only if what is missed is what is repeated; apart, if neither there is any. */
  lemma ListAgrees(q: Search, hits: Hits)
    requires q.d.Compound?
    ensures var all := AllReaches(q, hits);
      && (multiset(AllBatched(q, hits)) == multiset(AllOnce(q, hits)) <==> Balanced(q, all))
      && (Agrees(q, ListField, all) ==> AllBatched(q, hits) == AllOnce(q, hits))
      && (Apart(q, all) && Balanced(q, all) ==> Agrees(q, ListField, all))
  {
    var all := AllReaches(q, hits);
    LostAndRepeated(q, hits);
    SameIfBalanced(multiset(AllBatched(q, hits)), multiset(AllOnce(q, hits)),
                   multiset(Found(Only(q, Missed, all))), multiset(Found(Only(q, SeenTwice, all))));
    AgreesIfNoneMissed(q, all);
    if Agrees(q, ListField, all) {
      OnceAreFound(q, hits);
      AllBatchedAreFound(q, hits);
    }
    if Apart(q, all) && Balanced(q, all) {
      ApartBalanced(q, all);
    }
  }

  lemma SameIfBalanced(a: multiset<Obj>, b: multiset<Obj>, missed: multiset<Obj>, twice: multiset<Obj>)
    requires a + missed == b + twice
    ensures a == b <==> missed == twice
  {
    assert forall x :: a[x] + missed[x] == (a + missed)[x] == (b + twice)[x] == b[x] + twice[x];
  }

  lemma ApartBalanced(q: Search, all: seq<Reach>)
    requires Apart(q, all) && Balanced(q, all)
    ensures Only(q, Missed, all) == [] && Only(q, SeenTwice, all) == []
  {
    OnlyHas(q, Missed, all);
    OnlyHas(q, SeenTwice, all);
    SameFound(Only(q, Missed, all), Only(q, SeenTwice, all));
    SameFound(Only(q, SeenTwice, all), Only(q, Missed, all));
  }

  lemma SameFound(a: seq<Reach>, b: seq<Reach>)
    requires multiset(Found(a)) == multiset(Found(b))
    ensures a != [] ==> exists r, s :: r in a && s in b && r.obj == s.obj
  {
    if a != [] {
      assert Found(a)[0] in multiset(Found(a));
      assert Found(a)[0] in Found(b);
      var i :| 0 <= i < |Found(b)| && Found(b)[i] == Found(a)[0];
      assert a[0] in a && b[i] in b;
    }
  }

  lemma CountAgrees(q: Search, hits: Hits)
    requires q.d.Compound?
    ensures |AllBatched(q, hits)| == |AllOnce(q, hits)| <==> Agrees(q, IntField, AllReaches(q, hits))
  {
    LostAndRepeated(q, hits);
  }

  lemma FirstAgrees(q: Search, hits: Hits)
    requires q.d.Compound?
    ensures First(AllBatched(q, hits)) == First(AllOnce(q, hits)) <==> Agrees(q, ObjectField, AllReaches(q, hits))
  {
    var all := AllReaches(q, hits);
    OnceAreFound(q, hits);
    AllBatchedAreFound(q, hits);
    if all != [] && In(q, Seen, all[0]) { FirstSeen(q, all); }
  }

  /** All that is loaded when the fields of a resource are filled. */
  function LoadedFor(config: Config, store: seq<Assoc>, res: Obj, fields: seq<Field>): seq<Assoc> {
    Where(store, {res.id}, {}) + SecondLoad(config, Where(store, {res.id}, {}), res, fields, store)
  }

  /**
   * Batches against the store: with the associations of the resource loaded first, the others by target and
   * predicate after that, when a field gets the value it gets when its associations are followed in the whole
   * store one at a time. A list that misses and repeats the same objects has them in another order at best.
   */
  lemma BatchedEqualsStore(config: Config, store: seq<Assoc>, res: Obj, fields: seq<Field>, f: Field, objs: Objs)
    requires Readable(store, objs, res) && f in fields
    ensures FieldIds(config, store, store, res, f) <= objs.Keys
    ensures var l0, l1 := Where(store, {res.id}, {}), LoadedFor(config, store, res, fields);
      && FieldIds(config, l0, l1, res, f) <= objs.Keys
      && var same := ValueOf(config, l0, l1, res, f, objs) == ValueOf(config, store, store, res, f, objs);
      && (f.decorator.Single? ==> same)
      && (f.decorator.Compound? ==>
            var q := SearchFor(config, store, res, fields, f, objs);
            var all := AllReaches(q, FirstHits(config, store, res, f.decorator));
            && (f.kind != ListField || Apart(q, all) ==> (same <==> Agrees(q, f.kind, all)))
            && (f.kind == ListField && same ==> Balanced(q, all))
            && (Agrees(q, f.kind, all) ==> same))
  {
    var l0, l1 := Where(store, {res.id}, {}), LoadedFor(config, store, res, fields);
    FirstLoaded(config, store, res, f.decorator);
    if f.decorator.Compound? {
      var q, hits := SearchFor(config, store, res, fields, f, objs), FirstHits(config, store, res, f.decorator);
      BatchedReaches(config, store, res, fields, f, objs);
      assert l1 == Loaded(store, res, q.pairs);
      assert ValueOf(config, l0, l1, res, f, objs) == CompoundValue(f.kind, AllBatched(q, hits));
      assert ValueOf(config, store, store, res, f, objs) == CompoundValue(f.kind, AllOnce(q, hits));
      AgreesOnValue(q, f.kind, hits);
    } else {
      FirstReadable(config, store, objs, res, f.decorator);
    }
  }

  lemma BatchedReaches(config: Config, store: seq<Assoc>, res: Obj, fields: seq<Field>, f: Field, objs: Objs)
    requires Readable(store, objs, res) && f in fields && f.decorator.Compound?
    ensures var d, hits := f.decorator, FirstHits(config, store, res, f.decorator);
      var q := SearchFor(config, store, res, fields, f, objs);
      var l1 := Loaded(store, res, q.pairs);
      && SecondIds(config, store, hits, d.second) <= objs.Keys && SecondIds(config, l1, hits, d.second) <= objs.Keys
      && Reached(config, store, res, hits, d, objs) == AllOnce(q, hits)
      && Reached(config, l1, res, hits, d, objs) == AllBatched(q, hits)
  {
    var q, hits := SearchFor(config, store, res, fields, f, objs), FirstHits(config, store, res, f.decorator);
    OwnPairs(config, store, res, fields, f);
    ReachedStored(q, hits);
    ReachedLoaded(q, hits);
  }

  lemma AgreesOnValue(q: Search, kind: Kind, hits: Hits)
    requires q.d.Compound?
    ensures var all := AllReaches(q, hits);
      var same := CompoundValue(kind, AllBatched(q, hits)) == CompoundValue(kind, AllOnce(q, hits));
      && (kind != ListField || Apart(q, all) ==> (same <==> Agrees(q, kind, all)))
      && (kind == ListField && same ==> Balanced(q, all))
      && (Agrees(q, kind, all) ==> same)
  {
    SameValues(kind, AllBatched(q, hits), AllOnce(q, hits));
    if kind == ListField {
      ListAgrees(q, hits);
    } else if kind == IntField {
      CountAgrees(q, hits);
    } else {
      FirstAgrees(q, hits);
    }
  }

  lemma SameValues(kind: Kind, a: seq<Obj>, b: seq<Obj>)
    ensures CompoundValue(kind, a) == CompoundValue(kind, b)
      <==> match kind case IntField => |a| == |b| case ListField => a == b case ObjectField => First(a) == First(b)
  {
  }

  lemma OwnPairs(config: Config, store: seq<Assoc>, res: Obj, fields: seq<Field>, f: Field)
    requires f in fields && f.decorator.Compound?
    ensures var hits := FirstHits(config, store, res, f.decorator);
      forall i | 0 <= i < |hits| ::
        (hits[i].0, Raw(f.decorator.second)) in SecondPairs(config, Where(store, {res.id}, {}), res, fields)
    ensures f.decorator.second.direction == Either ==> Raw(f.decorator.second) == f.decorator.second.name
  {
    var hits := FirstHits(config, store, res, f.decorator);
    forall i | 0 <= i < |hits|
      ensures (hits[i].0, Raw(f.decorator.second)) in SecondPairs(config, Where(store, {res.id}, {}), res, fields)
    {
      assert hits[i].0 in Ids(hits);
      PairCovered(config, store, res, fields, hits[i].0, Raw(f.decorator.second));
    }
  }

  /** A target other than the resource leads on by an association that counts and is loaded from neither end. */
  predicate Misses(q: Search, hit: (string, Assoc), r: Reach)
    requires q.d.Compound?
  {
    hit.0 != q.res.id && Leads(q, hit, r) && !Matches(r.assoc, {}, q.pairs)
  }

  /** Something is missed exactly if some target does so. */
  lemma MissedIfUnloaded(q: Search, hits: Hits)
    requires q.d.Compound?
    ensures Only(q, Missed, AllReaches(q, hits)) != [] <==> exists hit, r :: hit in hits && Misses(q, hit, r)
  {
    var all := AllReaches(q, hits);
    OnlyHas(q, Missed, all);
    if r :| r in all && In(q, Missed, r) {
      AllReachesHave(q, hits, r);
      var hit :| hit in hits && Leads(q, hit, r);
      assert Misses(q, hit, r);
    }
    if hit, r :| hit in hits && Misses(q, hit, r) {
      AllReachesHave(q, hits, r);
      assert r in all && In(q, Missed, r);
    }
  }

  /** Nothing is missed where every target is the resource, or is loaded with the predicate by its plain name. */
  lemma CoveredLosesNothing(q: Search, hits: Hits)
    requires q.d.Compound?
    requires forall hit | hit in hits :: hit.0 == q.res.id || (hit.0, q.d.second.name) in q.pairs
    ensures Only(q, Missed, AllReaches(q, hits)) == []
  {
    MissedIfUnloaded(q, hits);
    forall hit, r | hit in hits && Leads(q, hit, r) ensures !Misses(q, hit, r) {
      LinksKeyed(q.config, q.store, hit, q.d.second, r.assoc);
    }
  }

  /**
   * Without a direction sign nothing is missed, so lists and counts are right exactly if nothing is found by way
   * of the resource itself.
   */
  lemma UnsignedAgrees(config: Config, store: seq<Assoc>, res: Obj, fields: seq<Field>, f: Field, objs: Objs)
    requires f in fields && f.decorator.Compound? && f.decorator.second.direction == Either
    ensures var q := SearchFor(config, store, res, fields, f, objs);
      var all := AllReaches(q, FirstHits(config, store, res, f.decorator));
      Apart(q, all) && (Agrees(q, f.kind, all) <==> f.kind == ObjectField || forall r | r in all :: r.target != res.id)
  {
    var q, hits := SearchFor(config, store, res, fields, f, objs), FirstHits(config, store, res, f.decorator);
    var all := AllReaches(q, hits);
    OwnPairs(config, store, res, fields, f);
    forall r | r in all ensures Matches(r.assoc, {}, q.pairs) {
      AllReachesHave(q, hits, r);
      var hit :| hit in hits && Leads(q, hit, r);
      LinksKeyed(config, store, hit, q.d.second, r.assoc);
    }
    PairedAgrees(q, f.kind, all);
  }

  /** Where all are loaded by fields, those of the resource itself are repeated. */
  lemma PairedAgrees(q: Search, kind: Kind, all: seq<Reach>)
    requires forall r | r in all :: Matches(r.assoc, {}, q.pairs)
    ensures Apart(q, all) && (Agrees(q, kind, all) <==> kind == ObjectField || forall r | r in all :: !In(q, Own, r))
  {
    OnlyHas(q, Missed, all);
    match kind
    case IntField => OnlyHas(q, SeenTwice, all);
    case ListField =>
    case ObjectField => if all != [] { assert all[0] in all; }
  }

  /**
   * Where no target is the resource itself, with or without a sign: lists and counts are right exactly if every
   * association that counts is loaded by some field.
   */
  lemma ElsewhereAgrees(config: Config, store: seq<Assoc>, res: Obj, fields: seq<Field>, f: Field, objs: Objs)
    requires f.decorator.Compound? && res.id !in Ids(FirstHits(config, store, res, f.decorator))
    ensures var q, hits := SearchFor(config, store, res, fields, f, objs), FirstHits(config, store, res, f.decorator);
      && Apart(q, AllReaches(q, hits))
      && (f.kind != ObjectField ==>
            (Agrees(q, f.kind, AllReaches(q, hits)) <==>
              forall r | r in AllReaches(q, hits) :: exists g :: g in fields && Loads(config, store, res, g, r.assoc)))
  {
    var q, hits := SearchFor(config, store, res, fields, f, objs), FirstHits(config, store, res, f.decorator);
    var all := AllReaches(q, hits);
    forall r | r in all ensures r.target != res.id {
      AllReachesHave(q, hits, r);
      var hit :| hit in hits && Leads(q, hit, r);
      assert hit.0 in Ids(hits);
    }
    forall r | r in all
      ensures Matches(r.assoc, {}, q.pairs) <==> exists g :: g in fields && Loads(config, store, res, g, r.assoc)
    {
      LoadedByFields(config, store, res, fields, f, objs, r.assoc);
    }
    OnlyHas(q, SeenTwice, all);
    OnlyHas(q, Missed, all);
  }

  /**
   * A field with a sign on its second predicate, of which no field loads any association by the plain name,
   * finds only what it reaches by way of the resource itself: nothing if it is none of its own targets.
   */
  lemma DirectedFindsOwn(config: Config, store: seq<Assoc>, res: Obj, fields: seq<Field>, f: Field, objs: Objs)
    requires Readable(store, objs, res) && f in fields && f.decorator.Compound?
      && f.decorator.second.direction != Either
    requires forall g, a | g in fields && a in store && a.p == f.decorator.second.name ::
      !Loads(config, store, res, g, a)
    ensures var l0, l1 := Where(store, {res.id}, {}), LoadedFor(config, store, res, fields);
      var q, hits := SearchFor(config, store, res, fields, f, objs), FirstHits(config, store, res, f.decorator);
      && FieldIds(config, l0, l1, res, f) <= objs.Keys
      && ValueOf(config, l0, l1, res, f, objs) == CompoundValue(f.kind, Found(Only(q, Own, AllReaches(q, hits))))
      && (res.id !in Ids(hits) ==> Found(Only(q, Own, AllReaches(q, hits))) == [])
  {
    var q, hits := SearchFor(config, store, res, fields, f, objs), FirstHits(config, store, res, f.decorator);
    var all := AllReaches(q, hits);
    FirstLoaded(config, store, res, f.decorator);
    forall r | r in all ensures !Matches(r.assoc, {}, q.pairs) && r.target in Ids(hits) {
      AllReachesHave(q, hits, r);
      var hit :| hit in hits && Leads(q, hit, r);
      LinksKeyed(config, store, hit, q.d.second, r.assoc);
      LoadedByFields(config, store, res, fields, f, objs, r.assoc);
      assert hit.0 in Ids(hits);
    }
    OnlyHas(q, SeenTwice, all);
    OnlyHas(q, Own, all);
    OwnAreSeen(q, all);
    AllBatchedAreFound(q, hits);
    ReachedLoaded(q, hits);
  }

  lemma {:induction false} OwnAreSeen(q: Search, rs: seq<Reach>)
    requires forall r | r in rs :: !Matches(r.assoc, {}, q.pairs)
    ensures Only(q, Seen, rs) == Only(q, Own, rs)
    decreases |rs|
  {
    if rs != [] { OwnAreSeen(q, rs[..|rs| - 1]); }
  }
}
