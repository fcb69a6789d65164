/** Deep merge of nested dicts with an explicit stack (putil/script_util.py, dict_merge). */
module DictMerge {
  import opened Wrappers

  /** A dict object; its values are leaves or further dict objects. */
  class PyDict {
    var entries: map<string, Val>

    constructor (entries: map<string, Val>)
      ensures this.entries == entries
    {
      this.entries := entries;
    }
  }

  datatype Val = Leaf(n: int) | Ref(d: PyDict)

  /** A nested dict as a value. */
  datatype Tree = TLeaf(n: int) | TNode(kids: map<string, Tree>)

  /** A nested dict together with the dict objects it consists of. */
  datatype Shape = SLeaf(n: int) | SNode(ref: PyDict, kids: map<string, Shape>)

  type Heap = map<PyDict, map<string, Val>>

  // ------------------------------------------------- the obvious recursion

  /** Right-biased deep merge: where both sides have a dict they are merged, elsewhere upd wins. */
  function Merge(base: Tree, upd: Tree): Tree
    requires base.TNode? && upd.TNode?
    decreases base
  {
    TNode(map k | k in base.kids.Keys + upd.kids.Keys ::
      if k !in upd.kids then base.kids[k]
      else if k in base.kids && base.kids[k].TNode? && upd.kids[k].TNode? then Merge(base.kids[k], upd.kids[k])
      else upd.kids[k])
  }

  function Lookup(t: Tree, path: seq<string>): Option<Tree>
    decreases |path|
  {
    if path == [] then Some(t)
    else if t.TNode? && path[0] in t.kids then Lookup(t.kids[path[0]], path[1..])
    else None
  }

  /** upd has nothing along the path: some proper prefix of it leads to a dict of upd without the next key. */
  predicate Untouched(upd: Tree, path: seq<string>)
    decreases |path|
  {
    path != [] && upd.TNode? && (path[0] !in upd.kids || Untouched(upd.kids[path[0]], path[1..]))
  }

  /** A leaf path set by upd takes its value. */
  lemma {:induction false} LeafWins(base: Tree, upd: Tree, path: seq<string>)
    requires base.TNode? && upd.TNode?
    requires Lookup(upd, path).Some? && Lookup(upd, path).value.TLeaf?
    ensures Lookup(Merge(base, upd), path) == Lookup(upd, path)
    decreases |path|
  {
    var k := path[0];
    if k in base.kids && base.kids[k].TNode? && upd.kids[k].TNode? {
      LeafWins(base.kids[k], upd.kids[k], path[1..]);
    }
  }

  /** Wherever upd leads: to the merge where both have a dict there, else to what upd has, be it empty. */
  lemma {:induction false} MergedAt(base: Tree, upd: Tree, path: seq<string>)
    requires base.TNode? && upd.TNode? && Lookup(upd, path).Some?
    ensures var was, given := Lookup(base, path), Lookup(upd, path).value;
      Lookup(Merge(base, upd), path)
        == Some(if given.TNode? && was.Some? && was.value.TNode? then Merge(was.value, given) else given)
    decreases |path|
  {
    if path != [] {
      var k := path[0];
      if k in base.kids && base.kids[k].TNode? && upd.kids[k].TNode? {
        MergedAt(base.kids[k], upd.kids[k], path[1..]);
      }
    }
  }

  /** A path that upd does not touch leads where it did: to the same value, or nowhere. */
  lemma {:induction false} UntouchedKept(base: Tree, upd: Tree, path: seq<string>)
    requires base.TNode? && upd.TNode? && Untouched(upd, path)
    ensures Lookup(Merge(base, upd), path) == Lookup(base, path)
    decreases |path|
  {
    var k := path[0];
    if k in upd.kids {
      if k in base.kids && base.kids[k].TNode? {
        UntouchedKept(base.kids[k], upd.kids[k], path[1..]);
      } else {
        UntouchedAbsent(upd.kids[k], path[1..]);
      }
    }
  }

  lemma {:induction false} UntouchedAbsent(upd: Tree, path: seq<string>)
    requires Untouched(upd, path)
    ensures Lookup(upd, path) == None
    decreases |path|
  {
    if path[0] in upd.kids { UntouchedAbsent(upd.kids[path[0]], path[1..]); }
  }

  lemma {:induction false} MergeSelf(t: Tree)
    requires t.TNode?
    ensures Merge(t, t) == t
    decreases t
  {
    var m := Merge(t, t).kids;
    forall k | k in t.kids ensures m[k] == t.kids[k] {
      if t.kids[k].TNode? { MergeSelf(t.kids[k]); }
    }
    assert m == t.kids;
  }

  /** Merging upd twice equals merging it once. */
  lemma {:induction false} MergeTwice(base: Tree, upd: Tree)
    requires base.TNode? && upd.TNode?
    ensures Merge(Merge(base, upd), upd) == Merge(base, upd)
    decreases base
  {
    var once := Merge(base, upd);
    var twice := Merge(once, upd).kids;
    forall k | k in twice ensures k in once.kids && twice[k] == once.kids[k] {
      if k in upd.kids && upd.kids[k].TNode? {
        if k in base.kids && base.kids[k].TNode? {
          MergeTwice(base.kids[k], upd.kids[k]);
        } else {
          MergeSelf(upd.kids[k]);
        }
      }
    }
    assert twice.Keys == once.kids.Keys;
    assert twice == once.kids;
  }

  // ------------------------------------------------- dict objects as trees

  ghost function ValOf(s: Shape): Val {
    if s.SLeaf? then Leaf(s.n) else Ref(s.ref)
  }

  ghost function Top(s: Shape): map<string, Val>
    requires s.SNode?
  {
    map k | k in s.kids :: ValOf(s.kids[k])
  }

  /** The dict objects of a nested dict. */
  ghost function Refs(s: Shape): set<PyDict> {
    if s.SLeaf? then {} else {s.ref} + KidRefs(s)
  }

  ghost function KidRefs(s: Shape): set<PyDict>
    requires s.SNode?
    decreases s, 0
  {
    set k, r | k in s.kids && r in Refs(s.kids[k]) :: r
  }

  ghost function Erase(s: Shape): Tree {
    if s.SLeaf? then TLeaf(s.n) else TNode(map k | k in s.kids :: Erase(s.kids[k]))
  }

  /** The heap h holds exactly this nested dict. */
  ghost predicate HoldsIn(h: Heap, s: Shape) {
    s.SNode? ==> s.ref in h && h[s.ref] == Top(s) && forall k | k in s.kids :: HoldsIn(h, s.kids[k])
  }

  /** No dict object occurs twice. */
  ghost predicate Unshared(s: Shape) {
    s.SNode? ==>
      && s.ref !in KidRefs(s)
      && (forall k, j | k in s.kids && j in s.kids && k != j :: Refs(s.kids[k]) !! Refs(s.kids[j]))
      && (forall k | k in s.kids :: Unshared(s.kids[k]))
  }

  ghost function Snapshot(rs: set<PyDict>): Heap
    reads rs
  {
    map r | r in rs :: r.entries
  }

  ghost predicate Holds(s: Shape)
    reads Refs(s)
  {
    HoldsIn(Snapshot(Refs(s)), s)
  }

  lemma {:induction false} HoldsFrame(h: Heap, h': Heap, s: Shape)
    requires HoldsIn(h, s)
    requires forall r | r in Refs(s) && r in h :: r in h' && h'[r] == h[r]
    ensures HoldsIn(h', s)
    decreases s
  {
    if s.SNode? {
      forall k | k in s.kids ensures HoldsIn(h', s.kids[k]) {
        assert Refs(s.kids[k]) <= KidRefs(s);
        HoldsFrame(h, h', s.kids[k]);
      }
    }
  }

  // ------------------------------------------------- merging in the heap

  ghost predicate Both(d: Shape, s: Shape, k: string)
    requires d.SNode? && s.SNode?
  {
    k in d.kids && k in s.kids && d.kids[k].SNode? && s.kids[k].SNode?
  }

  ghost function Merged(d: Shape, s: Shape): (r: Shape)
    requires d.SNode? && s.SNode?
    ensures r.SNode? && r.ref == d.ref
    decreases d
  {
    SNode(d.ref, map k | k in d.kids.Keys + s.kids.Keys ::
      if k !in s.kids then d.kids[k] else if Both(d, s, k) then Merged(d.kids[k], s.kids[k]) else s.kids[k])
  }

  lemma {:induction false} ErasesToMerge(d: Shape, s: Shape)
    requires d.SNode? && s.SNode?
    ensures Erase(Merged(d, s)) == Merge(Erase(d), Erase(s))
    decreases d
  {
    var m, t := Erase(Merged(d, s)).kids, Merge(Erase(d), Erase(s)).kids;
    var b, u := Erase(d).kids, Erase(s).kids;
    forall k | k in m ensures m[k] == t[k] {
      assert k in d.kids ==> b[k] == Erase(d.kids[k]);
      assert k in s.kids ==> u[k] == Erase(s.kids[k]);
      if Both(d, s, k) {
        ErasesToMerge(d.kids[k], s.kids[k]);
      } else if k in s.kids {
        assert m[k] == Erase(s.kids[k]);
      }
    }
    assert m == t;
  }

  /** The dict objects of d that the merge changes: where both sides have a dict. */
  ghost function PairRefs(d: Shape, s: Shape): set<PyDict>
    requires d.SNode? && s.SNode?
    decreases d
  {
    {d.ref} + set k, r | k in d.kids && Both(d, s, k) && r in PairRefs(d.kids[k], s.kids[k]) :: r
  }

  lemma {:induction false} PairRefsAreRefs(d: Shape, s: Shape)
    requires d.SNode? && s.SNode?
    ensures PairRefs(d, s) <= Refs(d)
    decreases d
  {
    forall k | k in d.kids && Both(d, s, k) ensures PairRefs(d.kids[k], s.kids[k]) <= Refs(d.kids[k]) {
      PairRefsAreRefs(d.kids[k], s.kids[k]);
    }
  }

  /** x and y are found at the same path of d and s, with dicts on both sides all along. */
  ghost predicate IsPair(d: Shape, s: Shape, x: Shape, y: Shape)
    requires d.SNode? && s.SNode?
    decreases d
  {
    (x == d && y == s) || exists k :: k in d.kids && Both(d, s, k) && IsPair(d.kids[k], s.kids[k], x, y)
  }

  /** What the merge writes into each changed dict object. */
  ghost function Want(d: Shape, s: Shape): (r: Heap)
    requires d.SNode? && s.SNode?
    ensures r.Keys == PairRefs(d, s)
    decreases d
  {
    map r | r in PairRefs(d, s) ::
      if r == d.ref then Top(Merged(d, s))
      else
        var k :| k in d.kids && Both(d, s, k) && r in PairRefs(d.kids[k], s.kids[k]);
        Want(d.kids[k], s.kids[k])[r]
  }

  lemma WantBelow(d: Shape, s: Shape, k: string)
    requires d.SNode? && s.SNode? && Unshared(d) && Both(d, s, k)
    ensures forall r | r in PairRefs(d.kids[k], s.kids[k]) ::
      r in Want(d, s) && r != d.ref && Want(d, s)[r] == Want(d.kids[k], s.kids[k])[r]
  {
    PairRefsAreRefs(d.kids[k], s.kids[k]);
    forall r | r in PairRefs(d.kids[k], s.kids[k])
      ensures r in Want(d, s) && r != d.ref && Want(d, s)[r] == Want(d.kids[k], s.kids[k])[r]
    {
      assert r in KidRefs(d);
      forall j | j in d.kids && Both(d, s, j) && r in PairRefs(d.kids[j], s.kids[j]) ensures j == k {
        PairRefsAreRefs(d.kids[j], s.kids[j]);
      }
    }
  }

  /** Every pair is written as the merge of its two sides, keeps its references to itself, and is unshared. */
  lemma {:induction false} PairAt(d: Shape, s: Shape, x: Shape, y: Shape)
    requires d.SNode? && s.SNode? && Unshared(d) && IsPair(d, s, x, y)
    ensures x.SNode? && y.SNode? && Unshared(x)
    ensures PairRefs(x, y) <= PairRefs(d, s)
    ensures x.ref in Want(d, s) && Want(d, s)[x.ref] == Top(Merged(x, y))
    ensures Refs(x) <= Refs(d) && Refs(y) <= Refs(s)
    decreases d
  {
    if x == d && y == s {
    } else {
      var k :| k in d.kids && Both(d, s, k) && IsPair(d.kids[k], s.kids[k], x, y);
      PairAt(d.kids[k], s.kids[k], x, y);
      WantBelow(d, s, k);
    }
  }

  lemma {:induction false} PairHolds(h: Heap, d: Shape, s: Shape, x: Shape, y: Shape)
    requires d.SNode? && s.SNode? && HoldsIn(h, d) && HoldsIn(h, s) && IsPair(d, s, x, y)
    ensures HoldsIn(h, x) && HoldsIn(h, y)
    decreases d
  {
    if x == d && y == s {
    } else {
      var k :| k in d.kids && Both(d, s, k) && IsPair(d.kids[k], s.kids[k], x, y);
      PairHolds(h, d.kids[k], s.kids[k], x, y);
    }
  }

  lemma {:induction false} PairBelow(d: Shape, s: Shape, x: Shape, y: Shape, k: string)
    requires d.SNode? && s.SNode? && IsPair(d, s, x, y) && x.SNode? && y.SNode? && Both(x, y, k)
    ensures IsPair(d, s, x.kids[k], y.kids[k])
    decreases d
  {
    if x == d && y == s {
      assert IsPair(d.kids[k], s.kids[k], x.kids[k], y.kids[k]);
    } else {
      var j :| j in d.kids && Both(d, s, j) && IsPair(d.kids[j], s.kids[j], x, y);
      PairBelow(d.kids[j], s.kids[j], x, y, k);
    }
  }

  /** When every changed dict object holds what is wanted and the others what they held, the heap holds the merge. */
  lemma {:induction false} MergedHolds(h0: Heap, h: Heap, d: Shape, s: Shape)
    requires d.SNode? && s.SNode? && Unshared(d) && HoldsIn(h0, d) && HoldsIn(h, s)
    requires forall r | r in PairRefs(d, s) :: r in h && h[r] == Want(d, s)[r]
    requires forall r | r in Refs(d) && r !in PairRefs(d, s) && r in h0 :: r in h && h[r] == h0[r]
    ensures HoldsIn(h, Merged(d, s))
    decreases d
  {
    var m := Merged(d, s);
    forall k | k in m.kids ensures HoldsIn(h, m.kids[k]) {
      if Both(d, s, k) {
        WantBelow(d, s, k);
        KidApart(d, s, k);
        MergedHolds(h0, h, d.kids[k], s.kids[k]);
      } else if k !in s.kids {
        KidApart(d, s, k);
        HoldsFrame(h0, h, d.kids[k]);
      }
    }
  }

  /** Among the dict objects below key k only those of the pair at k are changed. */
  lemma KidApart(d: Shape, s: Shape, k: string)
    requires d.SNode? && s.SNode? && Unshared(d) && k in d.kids
    ensures forall r | r in Refs(d.kids[k]) && r in PairRefs(d, s) ::
      Both(d, s, k) && r in PairRefs(d.kids[k], s.kids[k])
  {
    forall r | r in Refs(d.kids[k]) && r in PairRefs(d, s)
      ensures Both(d, s, k) && r in PairRefs(d.kids[k], s.kids[k])
    {
      assert r in KidRefs(d);
      var j :| j in d.kids && Both(d, s, j) && r in PairRefs(d.kids[j], s.kids[j]);
      PairRefsAreRefs(d.kids[j], s.kids[j]);
      assert j == k;
    }
  }

  // ------------------------------------------------- what the merge consists of

  /** Unshared dicts that have none in common merge to an unshared dict, which consists of theirs. */
  lemma {:induction false} MergedUnshared(d: Shape, s: Shape)
    requires d.SNode? && s.SNode? && Unshared(d) && Unshared(s) && Refs(d) !! Refs(s)
    ensures Unshared(Merged(d, s)) && Refs(Merged(d, s)) <= Refs(d) + Refs(s)
    decreases d
  {
    var m := Merged(d, s);
    forall k | k in m.kids ensures Unshared(m.kids[k]) && Refs(m.kids[k]) <= KidsAt(d, k) + KidsAt(s, k) {
      if Both(d, s, k) {
        assert KidsAt(d, k) == Refs(d.kids[k]) && KidsAt(s, k) == Refs(s.kids[k]);
        MergedUnshared(d.kids[k], s.kids[k]);
      }
    }
    forall k, j | k in m.kids && j in m.kids && k != j ensures Refs(m.kids[k]) !! Refs(m.kids[j]) {
      KidsApart(d, s, k, j);
    }
    assert d.ref !in KidRefs(m);
  }

  /** The dict objects below a key, if it is there. */
  ghost function KidsAt(d: Shape, k: string): (r: set<PyDict>)
    requires d.SNode?
    ensures r <= KidRefs(d) <= Refs(d)
  {
    if k in d.kids then Refs(d.kids[k]) else {}
  }

  lemma KidsApart(d: Shape, s: Shape, k: string, j: string)
    requires d.SNode? && s.SNode? && Unshared(d) && Unshared(s) && Refs(d) !! Refs(s) && k != j
    ensures KidsAt(d, k) + KidsAt(s, k) !! KidsAt(d, j) + KidsAt(s, j)
  {
  }

  /** The result shares with upd all its dict objects but those that were merged into one of base. */
  lemma {:induction false} SharesUnmerged(d: Shape, s: Shape, r: PyDict)
    requires d.SNode? && s.SNode? && Unshared(s) && Refs(d) !! Refs(s) && r in Refs(s)
    ensures r in Refs(Merged(d, s)) <==> r !in PairRefs(s, d)
    decreases d
  {
    if r == s.ref {
      NotTheRoot(d, s);
    } else {
      var k :| k in s.kids && r in Refs(s.kids[k]);
      SharedBelow(d, s, r, k);
      if Both(d, s, k) {
        assert Refs(d.kids[k]) == KidsAt(d, k) && Refs(s.kids[k]) == KidsAt(s, k);
        SharesUnmerged(d.kids[k], s.kids[k], r);
      }
    }
  }

  lemma NotTheRoot(d: Shape, s: Shape)
    requires d.SNode? && s.SNode? && Unshared(s) && Refs(d) !! Refs(s)
    ensures s.ref !in Refs(Merged(d, s))
  {
    var m := Merged(d, s);
    forall j | j in m.kids ensures s.ref !in Refs(m.kids[j]) { MergedRefs(d, s, j); }
  }

  /** What is found of a key's part of s, in the merge or among the pairs, is found below that key. */
  lemma SharedBelow(d: Shape, s: Shape, r: PyDict, k: string)
    requires d.SNode? && s.SNode? && Unshared(s) && Refs(d) !! Refs(s) && k in s.kids && r in Refs(s.kids[k])
    ensures r in Refs(Merged(d, s)) <==> r in Refs(Merged(d, s).kids[k])
    ensures r in PairRefs(s, d) <==> Both(s, d, k) && r in PairRefs(s.kids[k], d.kids[k])
  {
    var m := Merged(d, s);
    assert r in KidsAt(s, k);
    forall j | j in m.kids && r in Refs(m.kids[j]) ensures j == k { MergedRefs(d, s, j); }
    forall j | j in s.kids && Both(s, d, j) && r in PairRefs(s.kids[j], d.kids[j]) ensures j == k {
      PairRefsAreRefs(s.kids[j], d.kids[j]);
    }
    assert r in KidRefs(m) <==> r in Refs(m.kids[k]);
  }

  lemma MergedRefs(d: Shape, s: Shape, k: string)
    requires d.SNode? && s.SNode? && k in Merged(d, s).kids
    ensures Refs(Merged(d, s).kids[k]) <= KidsAt(d, k) + KidsAt(s, k)
  {
    if Both(d, s, k) { MergedWithin(d.kids[k], s.kids[k]); }
  }

  lemma {:induction false} MergedWithin(d: Shape, s: Shape)
    requires d.SNode? && s.SNode?
    ensures Refs(Merged(d, s)) <= Refs(d) + Refs(s)
    decreases d
  {
    var m := Merged(d, s);
    forall k | k in m.kids ensures Refs(m.kids[k]) <= KidsAt(d, k) + KidsAt(s, k) {
      if Both(d, s, k) { MergedWithin(d.kids[k], s.kids[k]); }
    }
  }

  /** Which dicts are merged depends on the values only. */
  lemma {:induction false} PairsOfValues(s: Shape, d: Shape, d': Shape)
    requires s.SNode? && d.SNode? && d'.SNode? && Erase(d) == Erase(d')
    ensures PairRefs(s, d) == PairRefs(s, d')
    decreases s
  {
    assert Erase(d).kids.Keys == d.kids.Keys && Erase(d').kids.Keys == d'.kids.Keys;
    forall k | k in s.kids ensures Both(s, d, k) <==> Both(s, d', k) {
      if k in d.kids { assert Erase(d).kids[k] == Erase(d').kids[k]; }
    }
    forall k | k in s.kids && Both(s, d, k) ensures PairRefs(s.kids[k], d.kids[k]) == PairRefs(s.kids[k], d'.kids[k]) {
      assert k in d'.kids && Erase(d.kids[k]) == Erase(d).kids[k] == Erase(d').kids[k] == Erase(d'.kids[k]);
      PairsOfValues(s.kids[k], d.kids[k], d'.kids[k]);
    }
  }

  lemma {:induction false} MergedSelf(s: Shape)
    requires s.SNode?
    ensures Merged(s, s) == s
    decreases s
  {
    var m := Merged(s, s).kids;
    forall k | k in s.kids ensures m[k] == s.kids[k] { if s.kids[k].SNode? { MergedSelf(s.kids[k]); } }
    assert m == s.kids;
  }

  /** Merging the same update again leaves every dict object as it is, those shared with it included. */
  lemma {:induction false} MergedAgain(d: Shape, s: Shape)
    requires d.SNode? && s.SNode?
    ensures Merged(Merged(d, s), s) == Merged(d, s)
    decreases d
  {
    var once := Merged(d, s);
    var twice := Merged(once, s).kids;
    forall k | k in twice ensures k in once.kids && twice[k] == once.kids[k] {
      if k in s.kids && s.kids[k].SNode? {
        if Both(d, s, k) { MergedAgain(d.kids[k], s.kids[k]); } else { MergedSelf(s.kids[k]); }
      }
    }
    assert twice.Keys == once.kids.Keys;
    assert twice == once.kids;
  }

  /** What the merge writes into dict objects of s itself, if it has any in common with d, they hold already. */
  ghost predicate Harmless(h: Heap, d: Shape, s: Shape)
    requires d.SNode? && s.SNode?
  {
    forall r | r in PairRefs(d, s) && r in Refs(s) && r in h :: h[r] == Want(d, s)[r]
  }

  lemma {:induction false} NothingToWrite(h: Heap, d: Shape, s: Shape, r: PyDict)
    requires d.SNode? && s.SNode? && HoldsIn(h, d) && Unshared(d) && Merged(d, s) == d && r in PairRefs(d, s)
    ensures r in h && h[r] == Want(d, s)[r]
    decreases d
  {
    if r != d.ref {
      var k :| k in d.kids && Both(d, s, k) && r in PairRefs(d.kids[k], s.kids[k]);
      assert Merged(d, s).kids[k] == d.kids[k];
      NothingToWrite(h, d.kids[k], s.kids[k], r);
      WantBelow(d, s, k);
    }
  }

  /** A heap that holds a nested dict holds these entries in its objects, and no others. */
  lemma {:induction false} HoldsSame(h: Heap, h': Heap, s: Shape)
    requires HoldsIn(h, s) && HoldsIn(h', s)
    ensures forall r | r in Refs(s) :: r in h && r in h' && h[r] == h'[r]
    decreases s
  {
    if s.SNode? {
      forall k | k in s.kids ensures forall r | r in Refs(s.kids[k]) :: r in h && r in h' && h[r] == h'[r] {
        HoldsSame(h, h', s.kids[k]);
      }
    }
  }

  // ------------------------------------------------- the loop

  /** The dict objects that the pairs on the stack still have to change. */
  ghost function StackRefs(todo: seq<(Shape, Shape)>): set<PyDict>
    requires forall i | 0 <= i < |todo| :: todo[i].0.SNode? && todo[i].1.SNode?
  {
    set i, r | 0 <= i < |todo| && r in PairRefs(todo[i].0, todo[i].1) :: r
  }

  ghost predicate Apart(todo: seq<(Shape, Shape)>) {
    && (forall i | 0 <= i < |todo| :: todo[i].0.SNode? && todo[i].1.SNode?)
    && (forall i, j | 0 <= i < j < |todo| :: PairRefs(todo[i].0, todo[i].1) !! PairRefs(todo[j].0, todo[j].1))
  }

  /**
   * The pairs on the stack are apart from each other and from the dict objects in done, and together these
   * are all that change.
   */
  ghost predicate Pending(d: Shape, s: Shape, todo: seq<(Shape, Shape)>, done: set<PyDict>)
    requires d.SNode? && s.SNode?
  {
    && Apart(todo)
    && (forall i | 0 <= i < |todo| :: IsPair(d, s, todo[i].0, todo[i].1))
    && done + StackRefs(todo) == PairRefs(d, s)
    && done !! StackRefs(todo)
  }

  /** The dict objects in done are written, the others are as they were. */
  ghost predicate Written(h0: Heap, h: Heap, want: Heap, done: set<PyDict>) {
    && h.Keys == h0.Keys && done <= want.Keys
    && (forall r | r in h :: h[r] == if r in done then want[r] else h0[r])
  }

  /** The pairs at some keys of a pair. */
  ghost function PairsAt(x: Shape, y: Shape, ks: seq<string>): seq<(Shape, Shape)>
    requires x.SNode? && y.SNode? && forall i | 0 <= i < |ks| :: Both(x, y, ks[i])
  {
    seq(|ks|, i requires 0 <= i < |ks| && Both(x, y, ks[i]) => (x.kids[ks[i]], y.kids[ks[i]]))
  }

  /** The keys of all the pairs of dicts, each once. */
  ghost predicate AllPairs(x: Shape, y: Shape, ks: seq<string>)
    requires x.SNode? && y.SNode?
  {
    && (forall i | 0 <= i < |ks| :: Both(x, y, ks[i]))
    && (forall i, j | 0 <= i < j < |ks| :: ks[i] != ks[j])
    && (forall k | k in x.kids && Both(x, y, k) :: k in ks)
  }

  /** One pass: the top pair is done, and the pairs below it go on the stack. */
  lemma PassKeeps(d: Shape, s: Shape, todo: seq<(Shape, Shape)>, done: set<PyDict>, ks: seq<string>)
    requires d.SNode? && s.SNode? && Unshared(d) && Pending(d, s, todo, done) && todo != []
    requires AllPairs(todo[|todo| - 1].0, todo[|todo| - 1].1, ks)
    ensures var x, y := todo[|todo| - 1].0, todo[|todo| - 1].1;
      && Pending(d, s, todo[..|todo| - 1] + PairsAt(x, y, ks), done + {x.ref})
      && x.ref !in done && x.ref in PairRefs(d, s) && Want(d, s)[x.ref] == Top(Merged(x, y))
  {
    var n := |todo| - 1;
    var rest, x, y := todo[..n], todo[n].0, todo[n].1;
    var below := PairsAt(x, y, ks);
    PairAt(d, s, x, y);
    BelowApart(x, y, ks);
    PairRefsSplit(x, y, ks);
    StackSplit(todo, rest + below, below);
    forall i | 0 <= i < |ks| ensures IsPair(d, s, below[i].0, below[i].1) { PairBelow(d, s, x, y, ks[i]); }
    RestApart(todo);
    ApartAppend(rest, below);
    MoveToDone(done, StackRefs(rest), x.ref, StackRefs(below));
    forall i | 0 <= i < |rest + below| ensures IsPair(d, s, (rest + below)[i].0, (rest + below)[i].1) {}
  }

  lemma MoveToDone(done: set<PyDict>, rest: set<PyDict>, x: PyDict, below: set<PyDict>)
    requires done !! (rest + ({x} + below)) && rest !! ({x} + below) && x !in below
    ensures (done + {x}) + (rest + below) == done + (rest + ({x} + below))
    ensures (done + {x}) !! (rest + below)
    ensures rest !! below
  {
  }

  lemma BelowApart(x: Shape, y: Shape, ks: seq<string>)
    requires x.SNode? && y.SNode? && Unshared(x)
    requires forall i | 0 <= i < |ks| :: Both(x, y, ks[i])
    requires forall i, j | 0 <= i < j < |ks| :: ks[i] != ks[j]
    ensures var below := PairsAt(x, y, ks);
      Apart(below) && x.ref !in StackRefs(below)
  {
    var below := PairsAt(x, y, ks);
    forall i | 0 <= i < |ks| ensures x.ref !in PairRefs(below[i].0, below[i].1) { WantBelow(x, y, ks[i]); }
    forall i, j | 0 <= i < j < |ks| ensures PairRefs(below[i].0, below[i].1) !! PairRefs(below[j].0, below[j].1) {
      PairRefsAreRefs(below[i].0, below[i].1);
      PairRefsAreRefs(below[j].0, below[j].1);
    }
  }

  /** Below the top of a stack of apart pairs nothing belongs to the top pair. */
  lemma RestApart(todo: seq<(Shape, Shape)>)
    requires Apart(todo) && todo != []
    ensures Apart(todo[..|todo| - 1])
    ensures StackRefs(todo[..|todo| - 1]) !! PairRefs(todo[|todo| - 1].0, todo[|todo| - 1].1)
  {
    var n := |todo| - 1;
    forall r | r in StackRefs(todo[..n]) ensures r !in PairRefs(todo[n].0, todo[n].1) {
      var i :| 0 <= i < n && r in PairRefs(todo[..n][i].0, todo[..n][i].1);
      assert todo[..n][i] == todo[i];
    }
  }

  lemma ApartAppend(a: seq<(Shape, Shape)>, b: seq<(Shape, Shape)>)
    requires Apart(a) && Apart(b) && StackRefs(a) !! StackRefs(b)
    ensures Apart(a + b)
  {
    var c := a + b;
    forall i, j | 0 <= i < j < |c| ensures PairRefs(c[i].0, c[i].1) !! PairRefs(c[j].0, c[j].1) {
      if i < |a| <= j {
        assert c[i] == a[i] && c[j] == b[j - |a|];
        assert PairRefs(a[i].0, a[i].1) <= StackRefs(a) && PairRefs(b[j - |a|].0, b[j - |a|].1) <= StackRefs(b);
      }
    }
  }

  lemma PairRefsSplit(x: Shape, y: Shape, ks: seq<string>)
    requires x.SNode? && y.SNode? && Unshared(x)
    requires forall i | 0 <= i < |ks| :: Both(x, y, ks[i])
    requires forall k | k in x.kids && Both(x, y, k) :: k in ks
    ensures PairRefs(x, y) == {x.ref} + StackRefs(PairsAt(x, y, ks))
  {
    var below := PairsAt(x, y, ks);
    forall r | r in PairRefs(x, y) && r != x.ref ensures r in StackRefs(below) {
      var k :| k in x.kids && Both(x, y, k) && r in PairRefs(x.kids[k], y.kids[k]);
      var i :| 0 <= i < |ks| && ks[i] == k;
      assert r in PairRefs(below[i].0, below[i].1);
    }
    forall r | r in StackRefs(below) ensures r in PairRefs(x, y) {
      var i :| 0 <= i < |below| && r in PairRefs(below[i].0, below[i].1);
      assert Both(x, y, ks[i]);
    }
  }

  lemma StackSplit(todo: seq<(Shape, Shape)>, todo': seq<(Shape, Shape)>, below: seq<(Shape, Shape)>)
    requires todo != [] && todo' == todo[..|todo| - 1] + below
    requires forall i | 0 <= i < |todo| :: todo[i].0.SNode? && todo[i].1.SNode?
    requires forall i | 0 <= i < |below| :: below[i].0.SNode? && below[i].1.SNode?
    ensures forall i | 0 <= i < |todo'| :: todo'[i].0.SNode? && todo'[i].1.SNode?
    ensures StackRefs(todo) == StackRefs(todo[..|todo| - 1]) + PairRefs(todo[|todo| - 1].0, todo[|todo| - 1].1)
    ensures StackRefs(todo') == StackRefs(todo[..|todo| - 1]) + StackRefs(below)
  {
    var n := |todo| - 1;
    forall r | r in StackRefs(todo) ensures r in StackRefs(todo[..n]) + PairRefs(todo[n].0, todo[n].1) {
      var i :| 0 <= i < |todo| && r in PairRefs(todo[i].0, todo[i].1);
      if i < n { assert r in PairRefs(todo[..n][i].0, todo[..n][i].1); }
    }
    forall r | r in StackRefs(todo[..n]) ensures r in StackRefs(todo) && r in StackRefs(todo') {
      var i :| 0 <= i < n && r in PairRefs(todo[..n][i].0, todo[..n][i].1);
      assert todo[i] == todo'[i];
    }
    forall r | r in StackRefs(below) ensures r in StackRefs(todo') {
      var i :| 0 <= i < |below| && r in PairRefs(below[i].0, below[i].1);
      assert todo'[n + i] == below[i];
    }
    forall r | r in StackRefs(todo') ensures r in StackRefs(todo[..n]) + StackRefs(below) {
      var i :| 0 <= i < |todo'| && r in PairRefs(todo'[i].0, todo'[i].1);
      if i < n { assert todo'[i] == todo[..n][i]; } else { assert todo'[i] == below[i - n]; }
    }
  }

  /** The entries of the destination when the keys in seen have been dealt with. */
  ghost function Partial(x: Shape, y: Shape, seen: set<string>): map<string, Val>
    requires x.SNode? && y.SNode? && seen <= y.kids.Keys
  {
    map k | k in x.kids.Keys + seen :: if k in seen then Top(Merged(x, y))[k] else ValOf(x.kids[k])
  }

  lemma PartialStep(x: Shape, y: Shape, seen: set<string>, k: string)
    requires x.SNode? && y.SNode? && seen <= y.kids.Keys && k in y.kids && k !in seen
    ensures Partial(x, y, seen + {k})
         == if Both(x, y, k) then Partial(x, y, seen) else Partial(x, y, seen)[k := ValOf(y.kids[k])]
  {
    assert Top(Merged(x, y))[k] == if Both(x, y, k) then ValOf(x.kids[k]) else ValOf(y.kids[k]);
  }

  /** Copies of some entries of s, made of the dict objects in the heap h. */
  ghost predicate Copies(s: Shape, kids: map<string, Shape>, h: Heap)
    requires s.SNode?
  {
    && kids.Keys <= s.kids.Keys
    && (forall k | k in kids :: CopyOf(s.kids[k], kids[k], h))
    && (forall k, j | k in kids && j in kids && k != j :: Refs(kids[k]) !! Refs(kids[j]))
  }

  ghost predicate CopyOf(s: Shape, t: Shape, h: Heap) {
    Refs(t) <= h.Keys && HoldsIn(h, t) && Unshared(t) && Erase(t) == Erase(s)
  }

  lemma CopiesMore(s: Shape, kids: map<string, Shape>, h: Heap, k: string, kid: Shape, more: Heap, h': Heap)
    requires s.SNode? && Copies(s, kids, h) && k in s.kids && k !in kids
    requires CopyOf(s.kids[k], kid, more) && more.Keys !! h.Keys
    requires h'.Keys == h.Keys + more.Keys
    requires (forall r | r in h :: h'[r] == h[r]) && forall r | r in more :: h'[r] == more[r]
    ensures Copies(s, kids[k := kid], h')
  {
    CopyIn(s.kids[k], kid, more, h');
    forall j | j in kids ensures CopyOf(s.kids[j], kids[j], h') { CopyIn(s.kids[j], kids[j], h, h'); }
  }

  lemma CopyIn(s: Shape, t: Shape, h: Heap, h': Heap)
    requires CopyOf(s, t, h) && h.Keys <= h'.Keys && forall r | r in h :: h'[r] == h[r]
    ensures CopyOf(s, t, h')
  {
    HoldsFrame(h, h', t);
  }

  ghost function Tops(kids: map<string, Shape>): map<string, Val> {
    map k | k in kids :: ValOf(kids[k])
  }

  lemma TopsMore(kids: map<string, Shape>, k: string, kid: Shape)
    ensures Tops(kids[k := kid]) == Tops(kids)[k := ValOf(kid)]
  {
  }

  lemma CopiesDone(s: Shape, kids: map<string, Shape>, h: Heap, c: PyDict, h': Heap)
    requires s.SNode? && Copies(s, kids, h) && kids.Keys == s.kids.Keys && c !in h
    requires h' == h[c := Tops(kids)]
    ensures CopyOf(s, SNode(c, kids), h')
  {
    var t := SNode(c, kids);
    assert Top(t) == Tops(kids);
    forall k | k in kids ensures HoldsIn(h', kids[k]) { HoldsFrame(h, h', kids[k]); }
    assert Erase(t).kids == Erase(s).kids;
  }

  lemma HoldsWithin(h: Heap, t: Shape)
    requires HoldsIn(h, t)
    ensures Refs(t) <= h.Keys
    decreases t
  {
    if t.SNode? {
      forall k | k in t.kids ensures Refs(t.kids[k]) <= h.Keys { HoldsWithin(h, t.kids[k]); }
    }
  }

  lemma RefsAllocated(s: Shape)
    ensures forall r | r in Refs(s) :: allocated(r)
    decreases s
  {
    if s.SNode? {
      assert allocated(s.ref);
      forall r | r in KidRefs(s) ensures allocated(r) {
        var k :| k in s.kids && r in Refs(s.kids[k]);
        RefsAllocated(s.kids[k]);
      }
    }
  }

  lemma CopyMade(s: Shape, kids: map<string, Shape>, made: set<PyDict>, c: PyDict)
    requires s.SNode? && Copies(s, kids, Snapshot(made)) && kids.Keys == s.kids.Keys && c !in made
    requires Snapshot(made + {c}) == Snapshot(made)[c := Tops(kids)]
    ensures var t := SNode(c, kids);
      Refs(t) <= made + {c} && CopyOf(s, t, Snapshot(Refs(t)))
  {
    CopiesDone(s, kids, Snapshot(made), c, Snapshot(made + {c}));
    HoldsHere(made + {c}, SNode(c, kids));
  }

  /** Copies a dict and everything below it into new objects. */
  method DeepCopy(d: PyDict, ghost s: Shape) returns (c: PyDict, ghost t: Shape)
    requires s.SNode? && s.ref == d && Holds(s)
    ensures t.SNode? && t.ref == c && fresh(Refs(t))
    ensures CopyOf(s, t, Snapshot(Refs(t)))
    decreases s, 2
  {
    ghost var kids, made;
    var copies;
    copies, kids, made := CopyEntries(d, s);
    c := new PyDict(copies);
    t := SNode(c, kids);
    assert Snapshot(made + {c}) == Snapshot(made)[c := Tops(kids)];
    CopyMade(s, kids, made, c);
  }

  method CopyEntries(d: PyDict, ghost s: Shape)
    returns (copies: map<string, Val>, ghost kids: map<string, Shape>, ghost made: set<PyDict>)
    requires s.SNode? && s.ref == d && Holds(s)
    ensures kids.Keys == s.kids.Keys && copies == Tops(kids)
    ensures fresh(made) && Copies(s, kids, Snapshot(made))
    decreases s, 1
  {
    RefsAllocated(s);
    copies, kids, made := map[], map[], {};
    var keys := d.entries.Keys;
    while keys != {}
      invariant keys <= s.kids.Keys && kids.Keys == s.kids.Keys - keys
      invariant fresh(made) && copies == Tops(kids)
      invariant Copies(s, kids, Snapshot(made)) && Holds(s)
      decreases keys
    {
      var k :| k in keys;
      ghost var h, kid := Snapshot(made), SLeaf(0);
      var v;
      v, kid := CopyVal(d.entries[k], s, k);
      CopiesMore(s, kids, h, k, kid, Snapshot(Refs(kid)), Snapshot(made + Refs(kid)));
      TopsMore(kids, k, kid);
      copies, kids, made := copies[k := v], kids[k := kid], made + Refs(kid);
      keys := keys - {k};
    }
  }

  method CopyVal(v: Val, ghost s: Shape, ghost k: string) returns (copy: Val, ghost t: Shape)
    requires s.SNode? && Holds(s) && k in s.kids && v == ValOf(s.kids[k])
    ensures copy == ValOf(t) && fresh(Refs(t))
    ensures CopyOf(s.kids[k], t, Snapshot(Refs(t)))
    decreases s, 0
  {
    match v
    case Leaf(n) => copy, t := v, SLeaf(n);
    case Ref(d) =>
      KidHolds(s, k);
      var c;
      c, t := DeepCopy(d, s.kids[k]);
      copy := Ref(c);
  }

  lemma KidHolds(s: Shape, k: string)
    requires s.SNode? && Holds(s) && k in s.kids
    ensures Holds(s.kids[k])
  {
    assert Refs(s.kids[k]) <= KidRefs(s);
    HoldsFrame(Snapshot(Refs(s)), Snapshot(Refs(s.kids[k])), s.kids[k]);
  }

  /** The entries of dst, the pairs pushed and their keys while the keys in keys are left to deal with. */
  ghost predicate Merging(x: Shape, y: Shape, keys: set<string>, entries: map<string, Val>, ks: seq<string>)
    requires x.SNode? && y.SNode?
  {
    && keys <= y.kids.Keys && entries == Partial(x, y, y.kids.Keys - keys)
    && (forall i | 0 <= i < |ks| :: Both(x, y, ks[i]) && ks[i] !in keys)
    && (forall i, j | 0 <= i < j < |ks| :: ks[i] != ks[j])
    && (forall k | k in x.kids && Both(x, y, k) :: k in ks || k in keys)
  }

  lemma MergesKey(x: Shape, y: Shape, keys: set<string>, entries: map<string, Val>, ks: seq<string>, k: string)
    requires x.SNode? && y.SNode? && Merging(x, y, keys, entries, ks) && k in keys
    ensures k in entries && entries[k].Ref? && Top(y)[k].Ref? <==> Both(x, y, k)
    ensures if Both(x, y, k)
      then Merging(x, y, keys - {k}, entries, ks + [k]) && (entries[k].d, Top(y)[k].d) == (x.kids[k].ref, y.kids[k].ref)
      else Merging(x, y, keys - {k}, entries[k := Top(y)[k]], ks)
  {
    PartialStep(x, y, y.kids.Keys - keys, k);
    assert (y.kids.Keys - keys) + {k} == y.kids.Keys - (keys - {k});
    var ks' := ks + [k];
    assert forall j | 0 <= j < |ks| :: ks'[j] == ks[j];
    assert ks'[|ks|] == k;
  }

  lemma MergingStarts(x: Shape, y: Shape)
    requires x.SNode? && y.SNode?
    ensures Merging(x, y, Top(y).Keys, Top(x), [])
  {
    assert Top(x) == Partial(x, y, {});
  }

  lemma MergingEnds(x: Shape, y: Shape, entries: map<string, Val>, ks: seq<string>)
    requires x.SNode? && y.SNode? && Merging(x, y, {}, entries, ks)
    ensures entries == Top(Merged(x, y)) && AllPairs(x, y, ks)
  {
    assert y.kids.Keys - {} == y.kids.Keys;
    assert Partial(x, y, y.kids.Keys) == Top(Merged(x, y));
  }

  /** Where the merge of a pair changes nothing, no part of it does. */
  lemma PartialStill(x: Shape, y: Shape, seen: set<string>)
    requires x.SNode? && y.SNode? && seen <= y.kids.Keys && Top(Merged(x, y)) == Top(x)
    ensures Partial(x, y, seen) == Top(x)
  {
    assert Top(Merged(x, y)).Keys == x.kids.Keys + y.kids.Keys;
  }

  /** One pass of the loop: writes the entries of src into dst and pushes the pairs of dicts below. */
  method MergeEntries(dst: PyDict, src: PyDict, stack: seq<(PyDict, PyDict)>, ghost x: Shape, ghost y: Shape)
    returns (pushed: seq<(PyDict, PyDict)>, ghost ks: seq<string>)
    requires x.SNode? && y.SNode? && dst == x.ref && src == y.ref
    requires dst.entries == Top(x) && src.entries == Top(y)
    requires dst == src ==> Top(Merged(x, y)) == Top(x)
    modifies dst
    ensures dst.entries == Top(Merged(x, y))
    ensures AllPairs(x, y, ks)
    ensures pushed == stack + Pointers(PairsAt(x, y, ks))
  {
    pushed, ks := stack, [];
    var keys := src.entries.Keys;
    MergingStarts(x, y);
    while keys != {}
      invariant Merging(x, y, keys, dst.entries, ks) && src.entries == Top(y)
      invariant pushed == stack + Pointers(PairsAt(x, y, ks))
      decreases keys
    {
      var k :| k in keys;
      var more;
      more, ks := MergeKey(dst, src, k, x, y, keys, ks);
      pushed := pushed + more;
      keys := keys - {k};
    }
    MergingEnds(x, y, dst.entries, ks);
  }

  /** Deals with one key: writes its value, or gives the pair of dicts to push. */
  method MergeKey(dst: PyDict, src: PyDict, k: string, ghost x: Shape, ghost y: Shape, ghost keys: set<string>,
                  ghost ks: seq<string>)
    returns (more: seq<(PyDict, PyDict)>, ghost ks': seq<string>)
    requires x.SNode? && y.SNode? && Merging(x, y, keys, dst.entries, ks) && k in keys && src.entries == Top(y)
    requires dst == src ==> Top(Merged(x, y)) == Top(x) == Top(y)
    modifies dst
    ensures Merging(x, y, keys - {k}, dst.entries, ks') && src.entries == Top(y)
    ensures Pointers(PairsAt(x, y, ks')) == Pointers(PairsAt(x, y, ks)) + more
  {
    MergesKey(x, y, keys, dst.entries, ks, k);
    if dst == src { PartialStill(x, y, y.kids.Keys - (keys - {k})); }
    more, ks' := [], ks;
    if k !in dst.entries {
      dst.entries := dst.entries[k := src.entries[k]];
    } else if src.entries[k].Ref? && dst.entries[k].Ref? {
      PointersSnoc(x, y, ks, k);
      more := [(dst.entries[k].d, src.entries[k].d)];
      ks' := ks + [k];
    } else {
      dst.entries := dst.entries[k := src.entries[k]];
    }
  }

  /** The stack as the program holds it. */
  ghost function Pointers(todo: seq<(Shape, Shape)>): seq<(PyDict, PyDict)>
    requires forall i | 0 <= i < |todo| :: todo[i].0.SNode? && todo[i].1.SNode?
  {
    seq(|todo|, i requires 0 <= i < |todo| && todo[i].0.SNode? && todo[i].1.SNode? => (todo[i].0.ref, todo[i].1.ref))
  }

  lemma PointersSnoc(x: Shape, y: Shape, ks: seq<string>, k: string)
    requires x.SNode? && y.SNode? && Both(x, y, k) && forall i | 0 <= i < |ks| :: Both(x, y, ks[i])
    ensures forall i | 0 <= i < |ks + [k]| :: Both(x, y, (ks + [k])[i])
    ensures Pointers(PairsAt(x, y, ks + [k])) == Pointers(PairsAt(x, y, ks)) + [(x.kids[k].ref, y.kids[k].ref)]
  {
  }

  /** What one pass keeps: h0 is the heap at the start and h the heap now. */
  ghost predicate Progress(h0: Heap, h: Heap, d: Shape, s: Shape, todo: seq<(Shape, Shape)>, done: set<PyDict>) {
    && d.SNode? && s.SNode? && Unshared(d) && Harmless(h0, d, s)
    && HoldsIn(h0, d) && HoldsIn(h0, s)
    && Pending(d, s, todo, done) && Written(h0, h, Want(d, s), done)
  }

  /** The pair on top of the stack is still as it was. */
  lemma TopPair(h0: Heap, h: Heap, d: Shape, s: Shape, todo: seq<(Shape, Shape)>, done: set<PyDict>, x: Shape, y: Shape)
    requires Progress(h0, h, d, s, todo, done) && todo != [] && (x, y) == todo[|todo| - 1]
    ensures x.SNode? && y.SNode? && x.ref in Refs(d) && y.ref in Refs(s) && x.ref in h && y.ref in h
    ensures h[x.ref] == Top(x) && h[y.ref] == Top(y)
    ensures x.ref == y.ref ==> Top(Merged(x, y)) == Top(x)
  {
    PairAt(d, s, x, y);
    PairHolds(h0, d, s, x, y);
    PairRefsAreRefs(d, s);
    assert x.ref in PairRefs(x, y);
    assert x.ref in StackRefs(todo);
  }

  /** After one pass the pair is written, and one more dict object is done. */
  lemma PassDone(h0: Heap, h: Heap, d: Shape, s: Shape, todo: seq<(Shape, Shape)>, done: set<PyDict>,
                 x: Shape, y: Shape, ks: seq<string>, todo': seq<(Shape, Shape)>, h': Heap)
    requires Progress(h0, h, d, s, todo, done) && todo != [] && (x, y) == todo[|todo| - 1]
    requires AllPairs(x, y, ks)
    requires h' == h[x.ref := Top(Merged(x, y))] && todo' == todo[..|todo| - 1] + PairsAt(x, y, ks)
    ensures x.ref in PairRefs(d, s) && x.ref !in done
    ensures Progress(h0, h', d, s, todo', done + {x.ref})
    ensures Pointers(todo') == Pointers(todo)[..|todo| - 1] + Pointers(PairsAt(x, y, ks))
  {
    TopPair(h0, h, d, s, todo, done, x, y);
    PassKeeps(d, s, todo, done, ks);
    WrittenMore(h0, h, Want(d, s), done, x.ref, h');
    PointersPass(todo, PairsAt(x, y, ks));
  }

  lemma PointersPass(todo: seq<(Shape, Shape)>, below: seq<(Shape, Shape)>)
    requires todo != []
    requires forall i | 0 <= i < |todo| :: todo[i].0.SNode? && todo[i].1.SNode?
    requires forall i | 0 <= i < |below| :: below[i].0.SNode? && below[i].1.SNode?
    ensures Pointers(todo[..|todo| - 1] + below) == Pointers(todo)[..|todo| - 1] + Pointers(below)
  {
  }

  lemma WrittenMore(h0: Heap, h: Heap, want: Heap, done: set<PyDict>, x: PyDict, h': Heap)
    requires Written(h0, h, want, done) && x in h && x in want && h' == h[x := want[x]]
    ensures Written(h0, h', want, done + {x})
  {
  }

  lemma Start(d: Shape, s: Shape, all: set<PyDict>)
    requires d.SNode? && s.SNode? && Unshared(d) && Holds(d) && Holds(s)
    requires all == Refs(d) + Refs(s) && Harmless(Snapshot(all), d, s)
    ensures Progress(Snapshot(all), Snapshot(all), d, s, [(d, s)], {})
  {
    var h := Snapshot(all);
    HoldsFrame(Snapshot(Refs(d)), h, d);
    HoldsFrame(Snapshot(Refs(s)), h, s);
    var todo := [(d, s)];
    assert todo[0] == (d, s);
    assert StackRefs(todo) == PairRefs(d, s);
  }

  lemma Finished(h0: Heap, h: Heap, d: Shape, s: Shape, done: set<PyDict>)
    requires Progress(h0, h, d, s, [], done)
    ensures HoldsIn(h, Merged(d, s)) && HoldsIn(h, s)
  {
    assert StackRefs([]) == {};
    assert done == PairRefs(d, s);
    PairRefsAreRefs(d, s);
    HoldsWithin(h0, d);
    HoldsFrame(h0, h, s);
    MergedHolds(h0, h, d, s);
  }

  lemma HoldsHere(all: set<PyDict>, t: Shape)
    requires HoldsIn(Snapshot(all), t)
    ensures Holds(t)
  {
    HoldsFrame(Snapshot(all), Snapshot(Refs(t)), t);
  }

  /** One pass in the heap of all dict objects involved: it changes one of them. */
  method MergeIn(dst: PyDict, src: PyDict, stack: seq<(PyDict, PyDict)>, ghost x: Shape, ghost y: Shape,
                 ghost all: set<PyDict>)
    returns (pushed: seq<(PyDict, PyDict)>, ghost ks: seq<string>)
    requires x.SNode? && y.SNode? && dst == x.ref && src == y.ref
    requires dst in all && dst.entries == Top(x) && src.entries == Top(y)
    requires dst == src ==> Top(Merged(x, y)) == Top(x)
    modifies dst
    ensures Snapshot(all) == old(Snapshot(all))[dst := Top(Merged(x, y))]
    ensures AllPairs(x, y, ks) && pushed == stack + Pointers(PairsAt(x, y, ks))
  {
    pushed, ks := MergeEntries(dst, src, stack, x, y);
  }

  /** Takes the top pair from the stack and merges it, pushing the pairs below it. */
  method Pass(stack: seq<(PyDict, PyDict)>, ghost h0: Heap, ghost d: Shape, ghost s: Shape,
      ghost todo: seq<(Shape, Shape)>, ghost done: set<PyDict>, ghost all: set<PyDict>)
    returns (rest: seq<(PyDict, PyDict)>, ghost todo': seq<(Shape, Shape)>, ghost x: Shape)
    requires Progress(h0, Snapshot(all), d, s, todo, done) && stack != []
    requires stack == Pointers(todo)
    modifies Refs(d)
    ensures x.SNode? && x.ref in PairRefs(d, s) - done
    ensures Progress(h0, Snapshot(all), d, s, todo', done + {x.ref})
    ensures rest == Pointers(todo')
  {
    var n := |stack| - 1;
    var currentDst, currentSrc := stack[n].0, stack[n].1;
    ghost var y, h, ks := todo[n].1, Snapshot(all), [];
    x := todo[n].0;
    TopPair(h0, h, d, s, todo, done, x, y);
    rest, ks := MergeIn(currentDst, currentSrc, stack[..n], x, y, all);
    todo' := todo[..n] + PairsAt(x, y, ks);
    PassDone(h0, h, d, s, todo, done, x, y, ks, todo', Snapshot(all));
  }

  /** The loop of the merge. */
  method MergeInto(dst: PyDict, upd: PyDict, ghost d: Shape, ghost s: Shape)
    requires d.SNode? && d.ref == dst && Holds(d) && Unshared(d)
    requires s.SNode? && s.ref == upd && Holds(s)
    requires Harmless(Snapshot(Refs(d) + Refs(s)), d, s)
    modifies Refs(d)
    ensures Holds(Merged(d, s)) && Holds(s)
  {
    ghost var all := Refs(d) + Refs(s);
    ghost var h0 := Snapshot(all);
    Start(d, s, all);
    var stack := [(dst, upd)];
    ghost var todo: seq<(Shape, Shape)> := [(d, s)];
    ghost var done: set<PyDict> := {};
    while stack != []
      invariant Progress(h0, Snapshot(all), d, s, todo, done)
      invariant stack == Pointers(todo)
      decreases PairRefs(d, s) - done
    {
      ghost var x;
      stack, todo, x := Pass(stack, h0, d, s, todo, done, all);
      done := done + {x.ref};
    }
    assert todo == [];
    Finished(h0, Snapshot(all), d, s, done);
    HoldsHere(all, Merged(d, s));
    HoldsHere(all, s);
  }

  /** Base and upd have no dict object in common, or base holds the merge of upd already. */
  ghost predicate Mergeable(b: Shape, u: Shape)
    requires b.SNode? && u.SNode?
  {
    Refs(b) !! Refs(u) || Merged(b, u) == b
  }

  lemma MergeableIsHarmless(all: set<PyDict>, b: Shape, u: Shape)
    requires b.SNode? && u.SNode? && Unshared(b) && Holds(b) && Mergeable(b, u) && all == Refs(b) + Refs(u)
    ensures Harmless(Snapshot(all), b, u)
  {
    PairRefsAreRefs(b, u);
    if Merged(b, u) == b {
      HoldsFrame(Snapshot(Refs(b)), Snapshot(all), b);
      forall r | r in PairRefs(b, u) ensures Snapshot(all)[r] == Want(b, u)[r] {
        NothingToWrite(Snapshot(all), b, u, r);
      }
    }
  }

  /** Of the dict objects of upd the result r shares all but those merged into one of base. */
  ghost predicate Sharing(r: Shape, b: Shape, u: Shape)
    requires b.SNode? && u.SNode?
  {
    Unshared(r) && forall o | o in Refs(u) :: o in Refs(r) <==> o !in PairRefs(u, b)
  }

  lemma MergedSharing(d: Shape, b: Shape, u: Shape)
    requires d.SNode? && b.SNode? && u.SNode? && Unshared(d) && Unshared(u) && Refs(d) !! Refs(u)
      && Erase(d) == Erase(b)
    ensures Sharing(Merged(d, u), b, u)
  {
    MergedUnshared(d, u);
    PairsOfValues(u, d, b);
    forall o | o in Refs(u) ensures o in Refs(Merged(d, u)) <==> o !in PairRefs(u, b) { SharesUnmerged(d, u, o); }
  }

  /**
   * Merges upd into base, or into a deep copy of it, with a stack of pairs instead of recursion. b and u
   * are the nested dicts found at base and upd, and r is the one found at dst afterwards. It consists of
   * dict objects of base, or new ones, and of some of upd.
   */
  method DictMerge(base: PyDict, upd: PyDict, inplace: bool, ghost b: Shape, ghost u: Shape)
    returns (dst: PyDict, ghost r: Shape)
    requires b.SNode? && b.ref == base && Holds(b) && Unshared(b)
    requires u.SNode? && u.ref == upd && Holds(u)
    requires inplace ==> Mergeable(b, u)
    modifies if inplace then Refs(b) else {}
    ensures r.SNode? && r.ref == dst && Holds(r)
    ensures Erase(r) == Merge(Erase(b), Erase(u))
    ensures Holds(u)
    ensures if inplace then dst == base && r == Merged(b, u) else fresh(Refs(r) - Refs(u)) && fresh(dst) && Holds(b)
    ensures Refs(r) <= Refs(b) + Refs(u) || !inplace
    ensures Unshared(u) && (inplace ==> Refs(b) !! Refs(u)) ==> Sharing(r, b, u)
  {
    RefsAllocated(u);
    ghost var d := b;
    if inplace {
      dst := base;
    } else {
      dst, d := DeepCopy(base, b);
      assert Refs(d) !! Refs(u);
    }
    assert Holds(u) && Holds(d);
    MergeableIsHarmless(Refs(d) + Refs(u), d, u);
    MergeInto(dst, upd, d, u);
    r := Merged(d, u);
    MergedWithin(d, u);
    ErasesToMerge(d, u);
    if Unshared(u) && Refs(d) !! Refs(u) { MergedSharing(d, b, u); }
  }

  /**
   * Merging the same update a second time in place, where dst and src are now the same object wherever the
   * first merge took a dict from upd: it leaves every dict object as the first left it.
   */
  method MergeAgain(base: PyDict, upd: PyDict, ghost b: Shape, ghost u: Shape) returns (dst: PyDict, ghost once: Heap)
    requires b.SNode? && b.ref == base && Holds(b) && Unshared(b)
    requires u.SNode? && u.ref == upd && Holds(u) && Unshared(u) && Refs(b) !! Refs(u)
    modifies Refs(b) + Refs(u)
    ensures dst == base && Holds(Merged(b, u)) && Holds(u) && HoldsIn(once, Merged(b, u))
    ensures Snapshot(Refs(Merged(b, u))) == once
  {
    ghost var m;
    dst, m := DictMerge(base, upd, true, b, u);
    once := Snapshot(Refs(m));
    MergedAgain(b, u);
    m := MergeSame(dst, upd, m, u);
    HoldsSame(once, Snapshot(Refs(m)), m);
  }

  method MergeSame(base: PyDict, upd: PyDict, ghost b: Shape, ghost u: Shape) returns (ghost r: Shape)
    requires b.SNode? && b.ref == base && Holds(b) && Unshared(b) && u.SNode? && u.ref == upd && Holds(u)
    requires Merged(b, u) == b
    modifies Refs(b)
    ensures r == b && Holds(b) && Holds(u)
  {
    var dst;
    dst, r := DictMerge(base, upd, true, b, u);
  }

  /** Into copies, the second merge gives an equal dict. */
  method CopyAgain(base: PyDict, upd: PyDict, ghost b: Shape, ghost u: Shape) returns (dst: PyDict, ghost r: Shape)
    requires b.SNode? && b.ref == base && Holds(b) && Unshared(b)
    requires u.SNode? && u.ref == upd && Holds(u) && Unshared(u)
    ensures r.SNode? && r.ref == dst && Holds(r) && Erase(r) == Merge(Erase(b), Erase(u)) && Holds(b) && Holds(u)
  {
    RefsAllocated(b);
    var first;
    ghost var m;
    first, m := DictMerge(base, upd, false, b, u);
    MergeTwice(Erase(b), Erase(u));
    dst, r := DictMerge(first, upd, false, m, u);
  }
}
