/** The directory: a tree of entries that cleans itself up (pyon/ion/directory.py). */
module Directories {
  import opened Wrappers

  type Attributes = map<string, string>

  /** Where an entry is: the path of its parent, and its key there. */
  datatype Place = Place(parent: string, key: string)

  datatype Entry = Entry(place: Place, attributes: Attributes, created: int, updated: int)

  // ------------------------------------------------- paths

  predicate Rooted(path: string) { path != "" && path[0] == '/' }

  function GetPath(parent: string, key: string): Option<string> {
    if parent == "/" then Some(parent + key)
    else if Rooted(parent) then Some(parent + "/" + key)
    else None
  }

  /** The place a path leads to: split at the last slash, if there is one. */
  function Split(path: string): Option<Place> {
    SplitAt(path, |path|)
  }

  function SplitAt(path: string, n: nat): Option<Place>
    requires n <= |path|
  {
    if n == 0 then None
    else if path[n - 1] == '/' then Some(Place(if n == 1 then "/" else path[..n - 1], path[n..]))
    else SplitAt(path, n - 1)
  }

  lemma {:induction false} SplitAfter(path: string, n: nat, slash: nat)
    requires slash < n <= |path| && path[slash] == '/' && forall i | slash < i < n :: path[i] != '/'
    ensures SplitAt(path, n) == Some(Place(if slash == 0 then "/" else path[..slash], path[slash + 1..]))
    decreases n
  {
    if slash < n - 1 { SplitAfter(path, n - 1, slash); }
  }

  /** Splitting a joined path gives back parent and key exactly when the key has no slash in it. */
  lemma SplitOfJoin(parent: string, key: string)
    requires Rooted(parent)
    ensures Split(GetPath(parent, key).value) == Some(Place(parent, key)) <==> '/' !in key
  {
    var path := GetPath(parent, key).value;
    var slash := |path| - |key| - 1;
    assert forall i | slash < i < |path| :: path[i] == key[i - slash - 1];
    if '/' !in key {
      SplitAfter(path, |path|, slash);
      assert path[slash + 1..] == key;
      assert parent != "/" ==> path[..slash] == parent;
    } else {
      SlashInKey(path, slash, key);
    }
  }

  lemma SlashInKey(path: string, slash: nat, key: string)
    requires |path| == slash + 1 + |key| && '/' in key && forall i | slash < i < |path| :: path[i] == key[i - slash - 1]
    ensures Split(path).Some? && |Split(path).value.key| < |key|
  {
    SplitAfter(path, |path|, slash + 1 + LastSlash(key));
  }

  function LastSlash(s: string): (k: nat)
    requires '/' in s
    ensures k < |s| && s[k] == '/' && forall i | k < i < |s| :: s[i] != '/'
  {
    if s[|s| - 1] == '/' then |s| - 1 else assert s == s[..|s| - 1] + [s[|s| - 1]]; LastSlash(s[..|s| - 1])
  }

  /** Joining a split path gives back the path, unless it is two slashes and a key. */
  lemma JoinOfSplit(path: string)
    requires Rooted(path)
    ensures Split(path).Some?
    ensures var p := Split(path).value;
      GetPath(p.parent, p.key) == Some(path) <==> !(|path| >= 2 && path[1] == '/' && '/' !in path[2..])
  {
    var k := LastSlash(path);
    SplitAfter(path, |path|, k);
    if k == 0 {
      assert path == "/" + path[1..];
    } else if k == 1 {
      TwoSlashes(path);
    } else {
      assert path == path[..k] + "/" + path[k + 1..];
      assert path[2..][k - 2] == '/';
    }
  }

  lemma TwoSlashes(path: string)
    requires Rooted(path) && '/' in path && LastSlash(path) == 1
    ensures '/' !in path[2..]
    ensures GetPath("/", path[2..]) != Some(path)
  {
    assert forall i | 0 <= i < |path[2..]| :: path[2..][i] == path[2 + i];
    assert |"/" + path[2..]| < |path|;
  }

  // ------------------------------------------------- documents

  type Docs = map<nat, Entry>

  function At(docs: Docs, place: Place): set<nat> { set id | id in docs && docs[id].place == place }

  /** No other entry of the place was updated later. */
  ghost predicate Newest(docs: Docs, id: nat)
    requires id in docs
  {
    forall d | d in At(docs, docs[id].place) :: docs[d].updated <= docs[id].updated
  }

  type Contents = map<Place, Attributes>

  /** The attributes at a place are those of one of its newest entries. */
  ghost predicate ShowsAt(docs: Docs, contents: Contents, p: Place) {
    if p in contents then exists id :: id in At(docs, p) && Newest(docs, id) && docs[id].attributes == contents[p]
    else At(docs, p) == {}
  }

  ghost predicate Shows(docs: Docs, contents: Contents) {
    forall p :: ShowsAt(docs, contents, p)
  }

  /** All newest entries of a place have the same attributes. */
  ghost predicate Settled(docs: Docs, p: Place) {
    forall c, d | c in At(docs, p) && d in At(docs, p) && Newest(docs, c) && Newest(docs, d) ::
      docs[c].attributes == docs[d].attributes
  }

  /**
   * One of the contents that the documents show, the same as before but where equally old entries of a place
   * read differ.
   */
  ghost predicate Seen(docs: Docs, before: Contents, seen: Contents, places: set<Place>) {
    && Shows(docs, before) && Shows(docs, seen)
    && forall p | p in before && (p !in places || Settled(docs, p)) :: p in seen && seen[p] == before[p]
  }

  /** A place is settled if its entries were updated at different times, or all hold the same. */
  lemma SettledIf(docs: Docs, p: Place)
    requires forall c, d | c in At(docs, p) && d in At(docs, p) && c != d ::
      docs[c].updated != docs[d].updated || docs[c].attributes == docs[d].attributes
    ensures Settled(docs, p)
  {
  }

  /** What is seen at other places than those read, and at settled ones, is what was there. */
  lemma SeenKeeps(docs: Docs, before: Contents, seen: Contents, places: set<Place>, p: Place)
    requires Seen(docs, before, seen, places)
    ensures p in seen <==> p in before
    ensures p in before && p !in places ==> seen[p] == before[p]
    ensures p in before && Settled(docs, p) ==> seen[p] == before[p]
  {
    assert ShowsAt(docs, before, p) && ShowsAt(docs, seen, p);
  }

  /** Every state shows some contents, and where every place is settled, only these. */
  lemma ShownOnce(docs: Docs, a: Contents, b: Contents)
    requires Shows(docs, a) && Shows(docs, b) && forall p :: Settled(docs, p)
    ensures a == b
  {
    forall p ensures p in a <==> p in b { assert ShowsAt(docs, a, p) && ShowsAt(docs, b, p); }
    forall p | p in a ensures a[p] == b[p] { assert ShowsAt(docs, a, p) && ShowsAt(docs, b, p) && Settled(docs, p); }
  }

  lemma {:induction false} ShowsSomething(docs: Docs) returns (contents: Contents)
    ensures Shows(docs, contents)
    decreases |docs|
  {
    if docs == map[] {
      contents := map[];
    } else {
      var id :| id in docs;
      var less := docs - {id};
      contents := ShowsSomething(less);
      contents := AddShows(less, contents, id, docs[id]);
      assert less[id := docs[id]] == docs;
    }
  }

  /** Where neither documents nor contents change, they still agree. */
  lemma SameElsewhere(docs: Docs, docs': Docs, contents: Contents, contents': Contents, p: Place)
    requires ShowsAt(docs, contents, p)
    requires (p in contents <==> p in contents') && (p in contents ==> contents[p] == contents'[p])
    requires At(docs, p) == At(docs', p) && forall id | id in At(docs, p) :: docs[id] == docs'[id]
    ensures ShowsAt(docs', contents', p)
  {
    if p in contents {
      var id :| id in At(docs, p) && Newest(docs, id) && docs[id].attributes == contents[p];
      assert Newest(docs', id);
    }
  }

  /** Removing all entries of a place but a newest one shows what that one holds there. */
  lemma CleaningShows(docs: Docs, contents: Contents, id: nat, left: Docs)
    requires Shows(docs, contents) && id in docs && Newest(docs, id)
    requires left == docs - (At(docs, docs[id].place) - {id})
    ensures var seen := contents[docs[id].place := docs[id].attributes];
      Seen(docs, contents, seen, {docs[id].place}) && Shows(left, seen) && At(left, docs[id].place) == {id}
  {
    var place := docs[id].place;
    var seen := contents[place := docs[id].attributes];
    assert id in At(docs, place) && At(left, place) == {id};
    forall p ensures ShowsAt(docs, seen, p) && ShowsAt(left, seen, p) {
      assert ShowsAt(docs, contents, p);
      if p != place {
        SameElsewhere(docs, docs, contents, seen, p);
        SameElsewhere(docs, left, contents, seen, p);
      } else {
        assert Newest(left, id);
      }
    }
    assert ShowsAt(docs, contents, place);
  }

  ghost predicate NewerThanAll(docs: Docs, place: Place, updated: int) {
    forall d | d in At(docs, place) :: docs[d].updated < updated
  }

  /** What is shown when an entry is made: the new one where it is newer than all there, else what was shown. */
  ghost function Added(docs: Docs, contents: Contents, e: Entry): Contents {
    if NewerThanAll(docs, e.place, e.updated) then contents[e.place := e.attributes] else contents
  }

  /** An entry made anywhere, newer, older or as old as those there; when it is as old it may show as well. */
  lemma AddShows(docs: Docs, contents: Contents, id: nat, e: Entry) returns (now: Contents)
    requires Shows(docs, contents) && id !in docs
    ensures now == Added(docs, contents, e) && Shows(docs[id := e], now)
    ensures (forall d | d in At(docs, e.place) :: docs[d].updated <= e.updated) ==>
      Shows(docs[id := e], contents[e.place := e.attributes])
    ensures forall p | p != e.place :: At(docs[id := e], p) == At(docs, p)
  {
    var more := docs[id := e];
    now := Added(docs, contents, e);
    assert At(more, e.place) == At(docs, e.place) + {id};
    if forall d | d in At(docs, e.place) :: docs[d].updated <= e.updated {
      assert Newest(more, id) && id in At(more, e.place);
      ShownThere(docs, more, contents, contents[e.place := e.attributes], e.place);
    }
    if !NewerThanAll(docs, e.place, e.updated) {
      OldOneStillShows(docs, contents, id, e);
      ShownThere(docs, more, contents, contents, e.place);
    }
  }

  lemma OldOneStillShows(docs: Docs, contents: Contents, id: nat, e: Entry)
    requires Shows(docs, contents) && id !in docs && !NewerThanAll(docs, e.place, e.updated)
    ensures ShowsAt(docs[id := e], contents, e.place)
  {
    assert ShowsAt(docs, contents, e.place);
    var d :| d in At(docs, e.place) && docs[d].updated >= e.updated;
    var c :| c in At(docs, e.place) && Newest(docs, c) && docs[c].attributes == contents[e.place];
    assert Newest(docs[id := e], c) && c in At(docs[id := e], e.place);
  }

  /** Documents and contents changed at one place only, and agree there. */
  lemma ShownThere(docs: Docs, docs': Docs, contents: Contents, contents': Contents, place: Place)
    requires Shows(docs, contents) && ShowsAt(docs', contents', place)
    requires contents' - {place} == contents - {place}
    requires forall id | id in docs && docs[id].place != place :: id in docs' && docs'[id] == docs[id]
    requires forall id | id in docs' && docs'[id].place != place :: id in docs
    requires forall id | id in docs && id in docs' && docs[id].place == place :: docs'[id].place == place
    ensures Shows(docs', contents')
    ensures forall p | p != place :: At(docs', p) == At(docs, p)
  {
    forall p | p != place ensures At(docs', p) == At(docs, p) {}
    forall p ensures ShowsAt(docs', contents', p) {
      assert ShowsAt(docs, contents, p);
      if p != place {
        assert p in contents - {place} <==> p in contents' - {place};
        if p in contents { assert (contents - {place})[p] == (contents' - {place})[p]; }
        SameElsewhere(docs, docs', contents, contents', p);
      }
    }
  }

  lemma ReplaceShows(docs: Docs, contents: Contents, id: nat, e: Entry)
    requires Shows(docs, contents) && id in docs && docs[id].place == e.place && At(docs, e.place) == {id}
    ensures Shows(docs[id := e], contents[e.place := e.attributes])
  {
    var more := docs[id := e];
    forall d | d in docs && d != id ensures docs[d].place != e.place { assert d !in At(docs, e.place); }
    assert At(more, e.place) == {id} && Newest(more, id);
    ShownThere(docs, more, contents, contents[e.place := e.attributes], e.place);
  }

  lemma RemoveShows(docs: Docs, contents: Contents, id: nat)
    requires Shows(docs, contents) && id in docs && At(docs, docs[id].place) == {id}
    ensures Shows(docs - {id}, contents - {docs[id].place})
  {
    var place := docs[id].place;
    forall d | d in docs && d != id ensures docs[d].place != place { assert d !in At(docs, place); }
    assert At(docs - {id}, place) == {};
    ShownThere(docs, docs - {id}, contents, contents - {place}, place);
  }

  /** One read of a place leaves exactly one of the entries there, a newest one, as it was, and nothing else changes. */
  ghost predicate CleanRead(was: Docs, now: Docs, place: Place, found: Option<nat>) {
    match found
    case None => now == was && At(was, place) == {}
    case Some(id) =>
      && id in was && was[id].place == place && Newest(was, id)
      && now == was - (At(was, place) - {id}) && At(now, place) == {id}
  }

  class Directory {
    var docs: Docs
    var nextId: nat
    /** What is registered where. */
    ghost var contents: Contents

    ghost predicate Valid()
      reads this
    {
      Shows(docs, contents) && forall id | id in docs :: id < nextId
    }

    constructor ()
      ensures Valid() && contents == map[] && docs == map[]
    {
      docs, nextId, contents := map[], 0, map[];
    }

    /** The entries of a place, in no particular order. */
    method FindByKey(place: Place) returns (ids: seq<nat>)
      ensures Lists(ids, At(docs, place))
    {
      ids := [];
      var todo := docs.Keys;
      while todo != {}
        invariant todo <= docs.Keys
        invariant Lists(ids, At(docs, place) - todo)
        decreases todo
      {
        var id :| id in todo;
        if docs[id].place == place { ids := ids + [id]; }
        todo := todo - {id};
      }
    }

    /** Keeps the first of the newest entries, whatever there is of them, and removes the others. */
    method CleanupOutdatedEntries(ids: seq<nat>) returns (newest: nat)
      requires ids != [] && forall id | id in ids :: id in docs
      modifies this`docs
      ensures newest in ids && forall id | id in ids :: old(docs)[id].updated <= old(docs)[newest].updated
      ensures exists i ::
        && 0 <= i < |ids| && ids[i] == newest
        && forall j | 0 <= j < i :: old(docs)[ids[j]].updated < old(docs)[newest].updated
      ensures docs == old(docs) - ((set id | id in ids) - {newest})
    {
      newest := ids[0];
      ghost var first: nat := 0;
      for i := 0 to |ids|
        invariant first < |ids| && ids[first] == newest
        invariant forall j | 0 <= j < i :: docs[ids[j]].updated <= docs[newest].updated
        invariant forall j | 0 <= j < first :: docs[ids[j]].updated < docs[newest].updated
      {
        if docs[ids[i]].updated > docs[newest].updated {
          newest := ids[i];
          first := i;
        }
      }
      for i := 0 to |ids|
        invariant docs == old(docs) - ((set id | id in ids[..i]) - {newest})
      {
        assert ids[..i + 1] == ids[..i] + [ids[i]];
        if ids[i] != newest { docs := docs - {ids[i]}; }
      }
      assert ids[..|ids|] == ids;
    }

    /** Whatever documents there are, one read leaves exactly one entry at the place it reads. */
    method ReadByPath(path: string) returns (r: Result<Option<nat>>)
      modifies this`docs
      ensures match Split(path)
        case None => r == Failure && docs == old(docs)
        case Some(place) => r.Success? && CleanRead(old(docs), docs, place, r.value)
    {
      var split := Split(path);
      if split == None { return Failure; }
      var place := split.value;
      ghost var was := docs;
      var ids := FindByKey(place);
      if ids == [] {
        assert forall d | d in At(docs, place) :: d in ids;
        return Success(None);
      }
      var id := ids[0];
      if |ids| > 1 {
        id := CleanupOutdatedEntries(ids);
      } else {
        assert ids == [id];
        assert docs == was - ((set d | d in ids) - {id});
      }
      Cleaned(was, docs, place, ids, id);
      return Success(Some(id));
    }

    /** The read as it shows in the contents: equally old entries that differ are settled. */
    method Read(path: string) returns (r: Result<Option<nat>>)
      requires Valid()
      modifies this`docs, this`contents
      ensures Valid()
      ensures match Split(path)
        case None => r == Failure && docs == old(docs) && contents == old(contents)
        case Some(place) =>
          && r.Success? && CleanRead(old(docs), docs, place, r.value)
          && Seen(old(docs), old(contents), contents, {place})
          && (r.value.Some? <==> place in contents)
          && (if r.value.Some? then docs[r.value.value].attributes == contents[place] else contents == old(contents))
    {
      ghost var was := docs;
      r := ReadByPath(path);
      if r.Success? {
        ghost var place := Split(path).value;
        assert ShowsAt(was, contents, place);
        if r.value.Some? {
          CleaningShows(was, contents, r.value.value, docs);
          contents := contents[place := docs[r.value.value].attributes];
        }
      }
    }

    /** Looks an entry up, which is to read its place. */
    method Lookup(parent: string, key: string) returns (r: Result<Option<Attributes>>)
      requires Valid()
      modifies this`docs, this`contents
      ensures Valid()
      ensures match Where(parent, key)
        case None => r == Failure && docs == old(docs) && contents == old(contents)
        case Some(place) =>
          && r == Success(Get(contents, place))
          && Seen(old(docs), old(contents), contents, {place})
          && exists found :: CleanRead(old(docs), docs, place, found)
    {
      var path := PathOf(parent, key);
      if path == None { return Failure; }
      var found := Read(path.value);
      if found.Failure? { return Failure; }
      return Success(if found.value.Some? then Some(docs[found.value.value].attributes) else None);
    }

    method Create(e: Entry)
      requires Valid()
      modifies this
      ensures Valid() && contents == Added(old(docs), old(contents), e)
      ensures docs == old(docs)[old(nextId) := e] && old(nextId) !in old(docs)
    {
      ghost var now := AddShows(docs, contents, nextId, e);
      docs := docs[nextId := e];
      nextId := nextId + 1;
      contents := now;
    }

    /** Creates the entry of the parent itself if there is none; those above it are not looked at. */
    method EnsureParentExists(parent: string, now: int) returns (ghost seen: Contents)
      requires Valid() && Rooted(parent)
      modifies this
      ensures Valid() && Seen(old(docs), old(contents), seen, ParentPlaces(parent))
      ensures contents == WithParent(seen, parent)
      ensures forall p | p !in ParentPlaces(parent) :: SameAt(old(docs), docs, p)
    {
      JoinOfSplit(parent);
      seen := contents;
      if parent != "/" {
        assert Where(parent, "") == Split(parent);
        ghost var was := docs;
        var pe := Lookup(parent, "");
        seen := contents;
        if pe == Success(None) {
          var place := Split(parent).value;
          assert ShowsAt(docs, contents, place);
          Create(Entry(place, map[], now, now));
        }
      }
    }

    /**
     * Adds an entry or replaces its attributes, returning those it had. A new entry also gets its missing
     * immediate parent. With createOnly an existing entry is left alone. The entry looked for is the one
     * that the joined path leads to; seen is what the reads show.
     */
    method Register(parent: string, key: string, createOnly: bool, attributes: Attributes, now: int)
      returns (r: Result<Option<Attributes>>, ghost seen: Contents)
      requires Valid()
      modifies this
      ensures Valid()
      ensures if !Rooted(parent) || key == "" then r == Failure && contents == old(contents) && docs == old(docs)
        else match Where(parent, key)
          case None => false
          case Some(there) =>
            && Seen(old(docs), old(contents), seen, {there} + ParentPlaces(parent))
            && r == Success(Get(seen, there))
            && contents == Registered(old(docs), seen, there, Place(parent, key), createOnly, attributes, now)
    {
      seen := contents;
      if parent == "" || key == "" { return Failure, seen; }
      if !Rooted(parent) { return Failure, seen; }
      var path := GetPath(parent, key).value;
      JoinOfSplit(path);
      var found := Read(path);
      seen := contents;
      if found.value == None {
        ghost var was := docs;
        seen := EnsureParentExists(parent, now);
        ParentIsElsewhere(parent, key);
        SameKeys(was, old(contents), seen);
        assert SameAt(was, docs, Place(parent, key));
        Create(Entry(Place(parent, key), attributes, now, now));
        return Success(None), seen;
      }
      var id := found.value.value;
      r := Success(Some(docs[id].attributes));
      if !createOnly {
        var e := docs[id].(attributes := attributes, updated := now);
        ReplaceShows(docs, contents, id, e);
        docs := docs[id := e];
        contents := contents[e.place := attributes];
      }
    }

    /** Removes an entry, returning its attributes. */
    method Unregister(parent: string, key: string) returns (r: Result<Option<Attributes>>, ghost seen: Contents)
      requires Valid()
      modifies this
      ensures Valid()
      ensures match Where(parent, key)
        case None => r == Failure && contents == old(contents)
        case Some(place) =>
          && Seen(old(docs), old(contents), seen, {place})
          && r == Success(Get(seen, place)) && contents == seen - {place}
    {
      seen := contents;
      var path := PathOf(parent, key);
      if path == None { return Failure, seen; }
      var found := Read(path.value);
      seen := contents;
      if found.Failure? { return Failure, seen; }
      if found.value == None { return Success(None), seen; }
      var id := found.value.value;
      r := Success(Some(docs[id].attributes));
      RemoveShows(docs, contents, id);
      contents := contents - {docs[id].place};
      docs := docs - {id};
    }
  }

  function Get(contents: Contents, place: Place): Option<Attributes> {
    if place in contents then Some(contents[place]) else None
  }

  ghost predicate SameAt(was: Docs, now: Docs, p: Place) {
    At(was, p) == At(now, p) && forall id | id in At(was, p) :: was[id] == now[id]
  }

  function ParentPlaces(parent: string): set<Place> {
    if parent == "/" then {} else match Split(parent) case None => {} case Some(p) => {p}
  }

  function PathOf(parent: string, key: string): Option<string> {
    if key != "" then GetPath(parent, key) else Some(parent)
  }

  /** The place that a parent and an optional key lead to. */
  function Where(parent: string, key: string): Option<Place> {
    match PathOf(parent, key)
    case None => None
    case Some(path) => Split(path)
  }

  function WithParent(contents: Contents, parent: string): Contents {
    if parent == "/" then contents
    else match Split(parent)
      case None => contents
      case Some(p) => if p in contents then contents else contents[p := map[]]
  }

  /** A new entry shows unless there is one as new at its place, which there is not where a key has no slash. */
  ghost function Registered(docs: Docs, seen: Contents, there: Place, place: Place, createOnly: bool,
                            attributes: Attributes, now: int): Contents
  {
    if there in seen then if createOnly then seen else seen[there := attributes]
    else if NewerThanAll(docs, place, now) then WithParent(seen, place.parent)[place := attributes]
    else WithParent(seen, place.parent)
  }

  lemma SameKeys(docs: Docs, a: Contents, b: Contents)
    requires Shows(docs, a) && Shows(docs, b)
    ensures a.Keys == b.Keys
  {
    forall p ensures p in a <==> p in b { assert ShowsAt(docs, a, p) && ShowsAt(docs, b, p); }
  }

  /** The entry of a parent is never that of its child. */
  lemma ParentIsElsewhere(parent: string, key: string)
    requires Rooted(parent)
    ensures Place(parent, key) !in ParentPlaces(parent)
  {
    var k := LastSlash(parent);
    SplitAfter(parent, |parent|, k);
    assert k > 0 ==> |parent[..k]| < |parent|;
  }

  /** Keys with a slash: the entry is made at one place and looked for at another. */
  lemma SlashedKeyIsLost(parent: string, key: string)
    requires Rooted(parent) && key != "" && '/' in key
    ensures Where(parent, key).Some? && Where(parent, key).value != Place(parent, key)
  {
    SplitOfJoin(parent, key);
    var path := GetPath(parent, key).value;
    JoinOfSplit(path);
  }

  ghost predicate Lists(ids: seq<nat>, s: set<nat>) {
    && (forall id :: id in ids <==> id in s)
    && (forall i, j | 0 <= i < j < |ids| :: ids[i] != ids[j])
  }

  lemma Cleaned(was: Docs, now: Docs, place: Place, ids: seq<nat>, id: nat)
    requires id in ids && Lists(ids, At(was, place))
    requires forall d | d in ids :: was[d].updated <= was[id].updated
    requires now == was - ((set d | d in ids) - {id})
    ensures CleanRead(was, now, place, Some(id))
  {
    assert (set d | d in ids) == At(was, place);
    assert id in At(was, place) && Newest(was, id) by {
      forall d | d in At(was, place) ensures was[d].updated <= was[id].updated { assert d in ids; }
    }
    assert At(now, place) == {id};
  }

  /**
   * What a map does: register a key without a slash and it is found where it was put. An entry that is there is
   * replaced, or left alone if it is only to be created; a new one comes with its parent.
   */
  lemma RegisterIsPut(docs: Docs, seen: Contents, parent: string, key: string, createOnly: bool,
                      attributes: Attributes, now: int)
    requires Rooted(parent) && key != "" && '/' !in key && Shows(docs, seen)
    ensures Where(parent, key) == Some(Place(parent, key))
    ensures var place := Place(parent, key);
      var put := Registered(docs, seen, place, place, createOnly, attributes, now);
      && (place in seen && createOnly ==> put == seen)
      && (place in seen && !createOnly ==> put == seen[place := attributes])
      && (place !in seen ==> put == WithParent(seen, parent)[place := attributes])
    ensures WithParent(seen, "/") == seen
  {
    SplitOfJoin(parent, key);
    assert ShowsAt(docs, seen, Place(parent, key));
  }

  /** The parent that a new entry comes with is an empty entry at the path of the parent, unless there is one. */
  lemma ParentIsPut(seen: Contents, above: string, key: string)
    requires Rooted(above) && key != "" && '/' !in key
    ensures var parent := if above == "/" then "/" + key else above + "/" + key;
      && Where(parent, "") == Some(Place(above, key))
      && WithParent(seen, parent) == if Place(above, key) in seen then seen else seen[Place(above, key) := map[]]
  {
    SplitOfJoin(above, key);
  }
}
