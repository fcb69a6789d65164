/** Serialization of nested objects (pyon/core/object.py): one recursive walk drives both directions. */
module ObjectSerialization {
  import opened Wrappers

  /**
   * A Python value: a string or number, a container, or an object with its class and attributes. The
   * attribute type_ always holds the class name and is not listed. Items of a set are in iteration order.
   */
  datatype Value =
    | Text(s: string)
    | Number(n: int)
    | Nothing
    | Dict(entries: map<string, Value>)
    | List(items: seq<Value>)
    | Tuple(items: seq<Value>)
    | SetOf(items: seq<Value>)
    | Object(cls: string, fields: map<string, Value>)

  /** The attributes of a class with their defaults, and its TypeVersion decorator. */
  datatype ClassDef = ClassDef(schema: map<string, Value>, typeVersion: Option<int>)

  type Registry = map<string, ClassDef>

  predicate HasMembers(v: Value) { v.Dict? || v.Object? }

  predicate HasItems(v: Value) { v.List? || v.Tuple? || v.SetOf? }

  /** The entries of a dict or the attributes of an object. */
  function Members(v: Value): (m: map<string, Value>)
    requires HasMembers(v)
    ensures forall k | k in m :: m[k] < v
  {
    if v.Dict? then v.entries else v.fields
  }

  const BUILT_IN_ATTRS: set<string> := {"_id", "_rev", "type_", "blame_", "persisted_version"}

  /** Attribute names of the framework and of the database are not used in schemas. */
  ghost predicate ValidRegistry(reg: Registry) {
    forall c | c in reg :: reg[c].schema.Keys !!
      {"_id", "_rev", "type_", "blame_", "persisted_version", "_attachments", "_conflicts"}
  }

  function SchemaOf(reg: Registry, cls: string): map<string, Value> {
    if cls in reg then reg[cls].schema else map[]
  }

  /** Whether serializing for persistence writes the type version. */
  predicate Stamped(reg: Registry, cls: string, updateVersion: bool) {
    updateVersion && cls in reg && reg[cls].typeVersion.Some?
  }

  function VersionStamp(reg: Registry, cls: string, updateVersion: bool): map<string, Value> {
    if Stamped(reg, cls, updateVersion) then map["persisted_version" := Number(reg[cls].typeVersion.value)] else map[]
  }

  /** The attributes the deserializer takes over as they are, without walking them. */
  predicate TakenRaw(schema: map<string, Value>, k: string) {
    k in BUILT_IN_ATTRS && k != "type_" && k !in schema
  }

  /** The dict an object becomes, given its serialized attributes. */
  function Entries(schema: map<string, Value>, cls: string, fields: map<string, Value>, stamp: map<string, Value>)
    : map<string, Value>
  {
    (map k | k in fields && (k in schema || k in BUILT_IN_ATTRS) :: fields[k]) + map["type_" := Text(cls)] + stamp
  }

  /** Walks a value with the serializer callback: objects become dicts with a type_, sequences become lists. */
  function Serialize(reg: Registry, v: Value, updateVersion: bool): Value
    decreases v, 1
  {
    if v.Dict? then Dict(SerializeMembers(reg, v, updateVersion))
    else if v.Object? then
      Dict(Entries(SchemaOf(reg, v.cls), v.cls, SerializeMembers(reg, v, updateVersion),
          VersionStamp(reg, v.cls, updateVersion)))
    else if HasItems(v) then List(SerializeItems(reg, v, updateVersion))
    else v
  }

  function SerializeMembers(reg: Registry, v: Value, updateVersion: bool): (r: map<string, Value>)
    requires HasMembers(v)
    ensures r.Keys == Members(v).Keys
    ensures forall k | k in r :: r[k] == Serialize(reg, Members(v)[k], updateVersion)
    decreases v, 0
  {
    map k | k in Members(v) :: Serialize(reg, Members(v)[k], updateVersion)
  }

  function SerializeItems(reg: Registry, v: Value, updateVersion: bool): (r: seq<Value>)
    requires HasItems(v)
    ensures |r| == |v.items|
    ensures forall i | 0 <= i < |r| :: r[i] == Serialize(reg, v.items[i], updateVersion)
    decreases v, 0
  {
    seq(|v.items|, i requires 0 <= i < |v.items| => Serialize(reg, v.items[i], updateVersion))
  }

  /** All results, or the failure of one of them. */
  function CollectMap(m: map<string, Result<Value>>): Result<map<string, Value>> {
    if exists k :: k in m && m[k].Failure? then Failure else Success(map k | k in m :: m[k].value)
  }

  function CollectSeq(xs: seq<Result<Value>>): Result<seq<Value>> {
    if exists i :: 0 <= i < |xs| && xs[i].Failure? then Failure
    else Success(seq(|xs|, i requires 0 <= i < |xs| => xs[i].value))
  }

  function RawOf(schema: map<string, Value>, m: map<string, Value>): map<string, Value> {
    map k | k in m && TakenRaw(schema, k) :: m[k]
  }

  /** The attributes of a new object: defaults, walked schema attributes, and built-in ones as they are. */
  function Attributes(schema: map<string, Value>, m: map<string, Value>, walked: map<string, Result<Value>>)
    : Result<map<string, Value>>
  {
    var w := CollectMap(walked);
    if w.Failure? then Failure else Success(schema + w.value + RawOf(schema, m))
  }

  /**
   * Walks a value with the deserializer callback: a dict with a type_ becomes a new object of that class
   * (an unknown class or a type_ that is no string is an error), whose schema attributes are then walked.
   */
  function Deserialize(reg: Registry, v: Value): Result<Value>
    decreases v, 2
  {
    if v.Dict? then DeserializeDict(reg, v)
    else if v.Object? then
      var schema := SchemaOf(reg, v.cls);
      var w := CollectMap(DeserializeMembers(reg, v, schema.Keys));
      if w.Failure? || !(schema.Keys <= v.fields.Keys) then Failure else Success(Object(v.cls, v.fields + w.value))
    else if HasItems(v) then
      var r := CollectSeq(DeserializeItems(reg, v));
      if r.Success? then Success(List(r.value)) else Failure
    else Success(v)
  }

  function DeserializeDict(reg: Registry, v: Value): Result<Value>
    requires v.Dict?
    decreases v, 1
  {
    var m := v.entries;
    if "type_" !in m then
      var r := CollectMap(DeserializeMembers(reg, v, m.Keys));
      if r.Success? then Success(Dict(r.value)) else Failure
    else if !m["type_"].Text? || m["type_"].s !in reg then Failure
    else
      var schema := reg[m["type_"].s].schema;
      var r := Attributes(schema, m, DeserializeMembers(reg, v, schema.Keys));
      if r.Success? then Success(Object(m["type_"].s, r.value)) else Failure
  }

  function DeserializeMembers(reg: Registry, v: Value, keys: set<string>): (r: map<string, Result<Value>>)
    requires HasMembers(v)
    ensures r.Keys == Members(v).Keys * keys
    ensures forall k | k in r :: r[k] == Deserialize(reg, Members(v)[k])
    decreases v, 0
  {
    map k | k in Members(v) && k in keys :: Deserialize(reg, Members(v)[k])
  }

  function DeserializeItems(reg: Registry, v: Value): (r: seq<Result<Value>>)
    requires HasItems(v)
    ensures |r| == |v.items|
    ensures forall i | 0 <= i < |r| :: r[i] == Deserialize(reg, v.items[i])
    decreases v, 0
  {
    seq(|v.items|, i requires 0 <= i < |v.items| => Deserialize(reg, v.items[i]))
  }

  /** The same value with tuples and sets as lists, and with the type version where it is written. */
  ghost function Normal(reg: Registry, v: Value, updateVersion: bool): Value
    decreases v, 1
  {
    if v.Dict? then Dict(NormalMembers(reg, v, updateVersion))
    else if v.Object? then Object(v.cls, NormalMembers(reg, v, updateVersion) + VersionStamp(reg, v.cls, updateVersion))
    else if HasItems(v) then List(NormalItems(reg, v, updateVersion))
    else v
  }

  ghost function NormalMembers(reg: Registry, v: Value, updateVersion: bool): (r: map<string, Value>)
    requires HasMembers(v)
    ensures r.Keys == Members(v).Keys
    ensures forall k | k in r :: r[k] == Normal(reg, Members(v)[k], updateVersion)
    decreases v, 0
  {
    map k | k in Members(v) :: Normal(reg, Members(v)[k], updateVersion)
  }

  ghost function NormalItems(reg: Registry, v: Value, updateVersion: bool): (r: seq<Value>)
    requires HasItems(v)
    ensures |r| == |v.items|
    ensures forall i | 0 <= i < |r| :: r[i] == Normal(reg, v.items[i], updateVersion)
    decreases v, 0
  {
    seq(|v.items|, i requires 0 <= i < |v.items| => Normal(reg, v.items[i], updateVersion))
  }

  ghost predicate ObjectFree(v: Value) {
    && !v.Object?
    && (v.Dict? ==> forall k | k in v.entries :: ObjectFree(v.entries[k]))
    && (HasItems(v) ==> forall i | 0 <= i < |v.items| :: ObjectFree(v.items[i]))
  }

  /** Already serialized: no object, tuple or set at any depth. */
  ghost predicate Plain(v: Value) {
    && !v.Object? && !v.Tuple? && !v.SetOf?
    && (v.Dict? ==> forall k | k in v.entries :: Plain(v.entries[k]))
    && (v.List? ==> forall i | 0 <= i < |v.items| :: Plain(v.items[i]))
  }

  /**
   * An object has all attributes of its schema and none but these and built-in ones; the schema attributes
   * come back when walked, and the built-in ones, unless stamped, come back as they are.
   */
  ghost predicate Complete(schema: map<string, Value>, keys: set<string>, stamp: set<string>, walked: set<string>,
                           raw: set<string>) {
    && schema.Keys <= keys
    && (forall k | k in keys :: k in schema || TakenRaw(schema, k))
    && keys * schema.Keys <= walked
    && keys - schema.Keys - stamp <= raw
  }

  /**
   * No plain dict carries type_; every object is of a known class and complete, its built-in attributes without
   * objects.
   */
  ghost predicate Clean(reg: Registry, v: Value, updateVersion: bool)
    decreases v, 1
  {
    && (v.Dict? ==> "type_" !in v.entries && forall k | k in v.entries :: Clean(reg, v.entries[k], updateVersion))
    && (v.Object? ==>
          && v.cls in reg
          && Complete(reg[v.cls].schema, v.fields.Keys, VersionStamp(reg, v.cls, updateVersion).Keys,
                      CleanFields(reg, v, updateVersion), ObjectFreeFields(v)))
    && (HasItems(v) ==> forall i | 0 <= i < |v.items| :: Clean(reg, v.items[i], updateVersion))
  }

  ghost function CleanFields(reg: Registry, v: Value, updateVersion: bool): (r: set<string>)
    requires v.Object?
    ensures forall k | k in v.fields :: k in r <==> Clean(reg, v.fields[k], updateVersion)
    ensures r <= v.fields.Keys
    decreases v, 0
  {
    set k | k in v.fields && Clean(reg, v.fields[k], updateVersion)
  }

  ghost function ObjectFreeFields(v: Value): set<string>
    requires v.Object?
  {
    set k | k in v.fields && ObjectFree(v.fields[k])
  }

  // ------------------------------------------------- the serialized form

  lemma {:induction false} SerializedPlain(reg: Registry, v: Value, updateVersion: bool)
    ensures Plain(Serialize(reg, v, updateVersion))
    decreases v
  {
    if HasMembers(v) {
      var s := SerializeMembers(reg, v, updateVersion);
      forall k | k in s ensures Plain(s[k]) { SerializedPlain(reg, Members(v)[k], updateVersion); }
    } else if HasItems(v) {
      var s := SerializeItems(reg, v, updateVersion);
      forall i | 0 <= i < |s| ensures Plain(s[i]) { SerializedPlain(reg, v.items[i], updateVersion); }
    }
  }

  lemma {:induction false} PlainStays(reg: Registry, v: Value, updateVersion: bool)
    requires Plain(v)
    ensures Serialize(reg, v, updateVersion) == v
    decreases v
  {
    if v.Dict? {
      forall k | k in v.entries ensures Serialize(reg, v.entries[k], updateVersion) == v.entries[k] {
        PlainStays(reg, v.entries[k], updateVersion);
      }
      assert SerializeMembers(reg, v, updateVersion) == v.entries;
    } else if v.List? {
      forall i | 0 <= i < |v.items| ensures Serialize(reg, v.items[i], updateVersion) == v.items[i] {
        PlainStays(reg, v.items[i], updateVersion);
      }
      assert SerializeItems(reg, v, updateVersion) == v.items;
    }
  }

  /** The serialized form holds no object, tuple or set at any depth, and serializing it again changes nothing. */
  lemma SerializeTwice(reg: Registry, v: Value, updateVersion: bool, again: bool)
    ensures var s := Serialize(reg, v, updateVersion);
      Plain(s) && Serialize(reg, s, again) == s
  {
    SerializedPlain(reg, v, updateVersion);
    PlainStays(reg, Serialize(reg, v, updateVersion), again);
  }

  // ------------------------------------------------- the round trip

  lemma MapsEqual(keys: set<string>, a: map<string, Value>, b: map<string, Value>)
    requires a.Keys == b.Keys == keys
    ensures a == b <==> forall k | k in keys :: a[k] == b[k]
  {
  }

  lemma SeqsEqual(a: seq<Value>, b: seq<Value>)
    requires |a| == |b|
    ensures a == b <==> forall i | 0 <= i < |a| :: a[i] == b[i]
  {
  }

  lemma CollectsMap(m: map<string, Result<Value>>, n: map<string, Value>)
    requires m.Keys == n.Keys
    ensures CollectMap(m) == Success(n) <==> forall k | k in m :: m[k] == Success(n[k])
  {
    if CollectMap(m) == Success(n) {
      forall k | k in m ensures m[k] == Success(n[k]) {
        assert (map j | j in m :: m[j].value)[k] == n[k];
      }
    }
    if forall k | k in m :: m[k] == Success(n[k]) {
      assert (map j | j in m :: m[j].value) == n;
    }
  }

  lemma CollectsSeq(xs: seq<Result<Value>>, n: seq<Value>)
    requires |xs| == |n|
    ensures CollectSeq(xs) == Success(n) <==> forall i | 0 <= i < |xs| :: xs[i] == Success(n[i])
  {
    if CollectSeq(xs) == Success(n) {
      forall i | 0 <= i < |xs| ensures xs[i] == Success(n[i]) {
        assert CollectSeq(xs).value[i] == xs[i].value;
      }
    }
    if forall i | 0 <= i < |xs| :: xs[i] == Success(n[i]) {
      SeqsEqual(CollectSeq(xs).value, n);
    }
  }

  ghost function WalkedBack(d: map<string, Result<Value>>, n: map<string, Value>): set<string> {
    set k | k in d && k in n && d[k] == Success(n[k])
  }

  ghost function Unchanged(s: map<string, Value>, n: map<string, Value>): set<string> {
    set k | k in s && k in n && s[k] == n[k]
  }

  /**
   * An object with serialized attributes s, normal form n and deserialized schema attributes d comes back
   * as n exactly when it has the right attributes and each of them comes back.
   */
  lemma ObjectReturns(schema: map<string, Value>, cls: string, stamp: map<string, Value>,
                      s: map<string, Value>, n: map<string, Value>, d: map<string, Result<Value>>)
    requires s.Keys == n.Keys && schema.Keys !! BUILT_IN_ATTRS
    requires stamp.Keys <= {"persisted_version"}
    requires d.Keys == s.Keys * schema.Keys
    ensures Attributes(schema, Entries(schema, cls, s, stamp), d) == Success(n + stamp)
        <==> Complete(schema, s.Keys, stamp.Keys, WalkedBack(d, n), Unchanged(s, n))
  {
    var m := Entries(schema, cls, s, stamp);
    EntriesAt(schema, cls, s, stamp);
    if Attributes(schema, m, d) == Success(n + stamp) { ReturnedIsComplete(schema, stamp, s, n, d, m); }
    if Complete(schema, s.Keys, stamp.Keys, WalkedBack(d, n), Unchanged(s, n)) {
      CompleteComesBack(schema, stamp, s, n, d, m);
    }
  }

  lemma ReturnedIsComplete(schema: map<string, Value>, stamp: map<string, Value>,
                           s: map<string, Value>, n: map<string, Value>, d: map<string, Result<Value>>,
                             m: map<string, Value>)
    requires s.Keys == n.Keys && d.Keys == s.Keys * schema.Keys && FromEntries(schema, stamp, s, m)
    requires Attributes(schema, m, d) == Success(n + stamp)
    ensures Complete(schema, s.Keys, stamp.Keys, WalkedBack(d, n), Unchanged(s, n))
  {
    Returned(schema, stamp, s, n, d, m);
  }

  lemma CompleteComesBack(schema: map<string, Value>, stamp: map<string, Value>,
                          s: map<string, Value>, n: map<string, Value>, d: map<string, Result<Value>>, m: map<string,
                            Value>)
    requires s.Keys == n.Keys && d.Keys == s.Keys * schema.Keys && FromEntries(schema, stamp, s, m)
    requires Complete(schema, s.Keys, stamp.Keys, WalkedBack(d, n), Unchanged(s, n))
    ensures Attributes(schema, m, d) == Success(n + stamp)
  {
    forall k | k in s && k in schema ensures d[k] == Success(n[k]) { assert k in WalkedBack(d, n); }
    forall k | k in s && k !in schema ensures k in stamp || s[k] == n[k] {
      assert k !in stamp ==> k in Unchanged(s, n);
    }
    ComesBack(schema, stamp, s, n, d, m);
  }

  /** The attributes of the dict m that an object with serialized attributes s became. */
  ghost predicate FromEntries(schema: map<string, Value>, stamp: map<string, Value>, s: map<string, Value>,
                              m: map<string, Value>) {
    && stamp.Keys <= {"persisted_version"} && schema.Keys !! BUILT_IN_ATTRS
    && (forall k | k in s && TakenRaw(schema, k) && k !in stamp :: k in m && m[k] == s[k])
    && (forall k | k in m && TakenRaw(schema, k) :: k in s || k in stamp)
    && (forall k | k in stamp :: k in m && m[k] == stamp[k])
  }

  lemma Returned(schema: map<string, Value>, stamp: map<string, Value>,
                 s: map<string, Value>, n: map<string, Value>, d: map<string, Result<Value>>, m: map<string, Value>)
    requires s.Keys == n.Keys && d.Keys == s.Keys * schema.Keys && FromEntries(schema, stamp, s, m)
    requires Attributes(schema, m, d) == Success(n + stamp)
    ensures schema.Keys <= s.Keys
    ensures forall k | k in s :: k in schema || TakenRaw(schema, k)
    ensures forall k | k in s && k in schema :: d[k] == Success(n[k])
    ensures forall k | k in s && k !in schema :: k in stamp || s[k] == n[k]
  {
    var f := n + stamp;
    forall k | k in schema ensures k in s { assert k in f; }
    forall k | k in s ensures k in schema || TakenRaw(schema, k) { assert k in f; }
    forall k | k in s && k in schema ensures d[k] == Success(n[k]) { assert f[k] == d[k].value && f[k] == n[k]; }
    forall k | k in s && k !in schema ensures k in stamp || s[k] == n[k] { assert f[k] == m[k]; }
  }

  lemma ComesBack(schema: map<string, Value>, stamp: map<string, Value>,
                  s: map<string, Value>, n: map<string, Value>, d: map<string, Result<Value>>, m: map<string, Value>)
    requires s.Keys == n.Keys && d.Keys == s.Keys * schema.Keys && FromEntries(schema, stamp, s, m)
    requires schema.Keys <= s.Keys
    requires forall k | k in s :: k in schema || TakenRaw(schema, k)
    requires forall k | k in s && k in schema :: d[k] == Success(n[k])
    requires forall k | k in s && k !in schema :: k in stamp || s[k] == n[k]
    ensures Attributes(schema, m, d) == Success(n + stamp)
  {
    var w := map k | k in d :: n[k];
    CollectsMap(d, w);
    SumOfParts(schema, stamp, s, n, w, RawOf(schema, m));
    WalkedAttributes(schema, m, d, w);
  }

  lemma WalkedAttributes(schema: map<string, Value>, m: map<string, Value>, d: map<string, Result<Value>>,
                         w: map<string, Value>)
    requires CollectMap(d) == Success(w) && schema.Keys == w.Keys
    ensures Attributes(schema, m, d) == Success(w + RawOf(schema, m))
  {
    assert schema + w == w;
  }

  lemma SumOfParts(schema: map<string, Value>, stamp: map<string, Value>,
                   s: map<string, Value>, n: map<string, Value>, w: map<string, Value>, raw: map<string, Value>)
    requires s.Keys == n.Keys && w.Keys == schema.Keys <= s.Keys
    requires raw.Keys == (s.Keys - schema.Keys) + stamp.Keys && stamp.Keys !! schema.Keys
    requires forall k | k in w :: w[k] == n[k]
    requires forall k | k in raw :: raw[k] == if k in stamp then stamp[k] else n[k]
    ensures w + raw == n + stamp
  {
    var f, g := w + raw, n + stamp;
    assert f.Keys == g.Keys;
    forall k | k in f.Keys ensures f[k] == g[k] {}
    MapsEqual(f.Keys, f, g);
  }

  /** A value that is not walked on the way back survives exactly when it holds no object. */
  lemma {:induction false} RawSurvives(reg: Registry, v: Value, updateVersion: bool)
    ensures Serialize(reg, v, updateVersion) == Normal(reg, v, updateVersion) <==> ObjectFree(v)
    decreases v, 1
  {
    if HasMembers(v) {
      RawMembers(reg, v, updateVersion);
      MapsEqual(Members(v).Keys, SerializeMembers(reg, v, updateVersion), NormalMembers(reg, v, updateVersion));
    } else if HasItems(v) {
      forall i | 0 <= i < |v.items|
        ensures SerializeItems(reg, v, updateVersion)[i] == NormalItems(reg, v, updateVersion)[i]
          <==> ObjectFree(v.items[i])
      { RawSurvives(reg, v.items[i], updateVersion); }
      SeqsEqual(SerializeItems(reg, v, updateVersion), NormalItems(reg, v, updateVersion));
    }
  }

  lemma {:induction false} RawMembers(reg: Registry, v: Value, updateVersion: bool)
    requires HasMembers(v)
    ensures var s, n := SerializeMembers(reg, v, updateVersion), NormalMembers(reg, v, updateVersion);
      forall k | k in Members(v) :: s[k] == n[k] <==> ObjectFree(Members(v)[k])
    decreases v, 0
  {
    forall k | k in Members(v)
      ensures Serialize(reg, Members(v)[k], updateVersion) == Normal(reg, Members(v)[k], updateVersion)
        <==> ObjectFree(Members(v)[k])
    { RawSurvives(reg, Members(v)[k], updateVersion); }
  }

  ghost predicate Returns(reg: Registry, v: Value, updateVersion: bool) {
    Deserialize(reg, Serialize(reg, v, updateVersion)) == Success(Normal(reg, v, updateVersion))
  }

  /** Deserializing a serialized value gives it back, up to tuples and sets becoming lists, exactly when it is clean. */
  lemma {:induction false} RoundTrip(reg: Registry, v: Value, updateVersion: bool)
    requires ValidRegistry(reg)
    ensures Returns(reg, v, updateVersion) <==> Clean(reg, v, updateVersion)
    decreases v
  {
    if HasMembers(v) {
      forall k | k in Members(v)
        ensures Returns(reg, Members(v)[k], updateVersion) <==> Clean(reg, Members(v)[k], updateVersion)
      { RoundTrip(reg, Members(v)[k], updateVersion); }
      if v.Dict? {
        DictReturns(reg, v, updateVersion);
      } else {
        RoundTripObject(reg, v, updateVersion);
      }
    } else if HasItems(v) {
      forall i | 0 <= i < |v.items|
        ensures Returns(reg, v.items[i], updateVersion) <==> Clean(reg, v.items[i], updateVersion)
      { RoundTrip(reg, v.items[i], updateVersion); }
      RoundTripList(reg, v, updateVersion);
    }
  }

  ghost function ReturningFields(reg: Registry, v: Value, updateVersion: bool): set<string>
    requires v.Object?
  {
    set k | k in v.fields && Returns(reg, v.fields[k], updateVersion)
  }

  lemma RoundTripObject(reg: Registry, v: Value, updateVersion: bool)
    requires ValidRegistry(reg) && v.Object?
    requires forall k | k in Members(v) ::
      Returns(reg, Members(v)[k], updateVersion) <==> Clean(reg, Members(v)[k], updateVersion)
    ensures Returns(reg, v, updateVersion) <==> Clean(reg, v, updateVersion)
  {
    if v.cls in reg {
      KnownObjectReturns(reg, v, updateVersion);
      SameFields(reg, v, updateVersion);
    } else {
      UnknownClassFails(reg, v, updateVersion);
    }
  }

  lemma SameFields(reg: Registry, v: Value, updateVersion: bool)
    requires v.Object?
    requires forall k | k in Members(v) ::
      Returns(reg, Members(v)[k], updateVersion) <==> Clean(reg, Members(v)[k], updateVersion)
    ensures ReturningFields(reg, v, updateVersion) == CleanFields(reg, v, updateVersion)
  {
    forall k | k in Members(v)
      ensures k in ReturningFields(reg, v, updateVersion) <==> k in CleanFields(reg, v, updateVersion)
    {
    }
  }

  lemma DictReturns(reg: Registry, v: Value, updateVersion: bool)
    requires v.Dict?
    ensures Returns(reg, v, updateVersion)
        <==> "type_" !in v.entries && forall k | k in v.entries :: Returns(reg, v.entries[k], updateVersion)
  {
    var s, n := SerializeMembers(reg, v, updateVersion), NormalMembers(reg, v, updateVersion);
    assert Serialize(reg, v, updateVersion) == Dict(s);
    assert Deserialize(reg, Dict(s)) == DeserializeDict(reg, Dict(s));
    if "type_" !in s {
      var d := DeserializeMembers(reg, Dict(s), s.Keys);
      CollectsMap(d, n);
      assert forall k | k in d :: d[k] == Success(n[k]) <==> Returns(reg, v.entries[k], updateVersion);
    }
  }

  lemma UnknownClassFails(reg: Registry, v: Value, updateVersion: bool)
    requires v.Object? && v.cls !in reg
    ensures Deserialize(reg, Serialize(reg, v, updateVersion)) == Failure
  {
    var m := Entries(map[], v.cls, SerializeMembers(reg, v, updateVersion), map[]);
    assert Serialize(reg, v, updateVersion) == Dict(m);
    assert m["type_"] == Text(v.cls);
    assert Deserialize(reg, Dict(m)) == DeserializeDict(reg, Dict(m));
  }

  lemma ListReturns(reg: Registry, v: Value, updateVersion: bool)
    requires HasItems(v)
    ensures Returns(reg, v, updateVersion) <==> forall i | 0 <= i < |v.items| :: Returns(reg, v.items[i], updateVersion)
  {
    var s, n := SerializeItems(reg, v, updateVersion), NormalItems(reg, v, updateVersion);
    var d := DeserializeItems(reg, List(s));
    CollectsSeq(d, n);
    forall i | 0 <= i < |d| ensures d[i] == Success(n[i]) <==> Returns(reg, v.items[i], updateVersion) {}
    assert Serialize(reg, v, updateVersion) == List(s) && Normal(reg, v, updateVersion) == List(n);
  }

  lemma RoundTripList(reg: Registry, v: Value, updateVersion: bool)
    requires HasItems(v)
    requires forall i | 0 <= i < |v.items| ::
      Returns(reg, v.items[i], updateVersion) <==> Clean(reg, v.items[i], updateVersion)
    ensures Returns(reg, v, updateVersion) <==> Clean(reg, v, updateVersion)
  {
    ListReturns(reg, v, updateVersion);
  }

  lemma KnownObjectReturns(reg: Registry, v: Value, updateVersion: bool)
    requires ValidRegistry(reg) && v.Object? && v.cls in reg
    ensures Returns(reg, v, updateVersion) <==>
      Complete(reg[v.cls].schema, v.fields.Keys, VersionStamp(reg, v.cls, updateVersion).Keys,
               ReturningFields(reg, v, updateVersion), ObjectFreeFields(v))
  {
    var schema, stamp := reg[v.cls].schema, VersionStamp(reg, v.cls, updateVersion);
    var s, n := SerializeMembers(reg, v, updateVersion), NormalMembers(reg, v, updateVersion);
    var m := Entries(schema, v.cls, s, stamp);
    var d := DeserializeMembers(reg, Dict(m), schema.Keys);
    EntriesAt(schema, v.cls, s, stamp);
    ObjectReturns(schema, v.cls, stamp, s, n, d);
    UnfoldReturns(reg, v, updateVersion);
    WalkedFields(reg, v, updateVersion, m);
    SameRaw(reg, v, updateVersion);
  }

  lemma UnfoldReturns(reg: Registry, v: Value, updateVersion: bool)
    requires v.Object? && v.cls in reg
    ensures var schema, stamp := reg[v.cls].schema, VersionStamp(reg, v.cls, updateVersion);
      var m := Entries(schema, v.cls, SerializeMembers(reg, v, updateVersion), stamp);
      Returns(reg, v, updateVersion) <==>
        Attributes(schema, m, DeserializeMembers(reg, Dict(m), schema.Keys))
          == Success(NormalMembers(reg, v, updateVersion) + stamp)
  {
    var schema, stamp := reg[v.cls].schema, VersionStamp(reg, v.cls, updateVersion);
    var m := Entries(schema, v.cls, SerializeMembers(reg, v, updateVersion), stamp);
    assert m["type_"] == Text(v.cls);
    assert Deserialize(reg, Dict(m)) == DeserializeDict(reg, Dict(m));
  }

  lemma SameRaw(reg: Registry, v: Value, updateVersion: bool)
    requires v.Object?
    ensures Unchanged(SerializeMembers(reg, v, updateVersion), NormalMembers(reg, v, updateVersion))
      == ObjectFreeFields(v)
  {
    var raw := Unchanged(SerializeMembers(reg, v, updateVersion), NormalMembers(reg, v, updateVersion));
    RawMembers(reg, v, updateVersion);
    forall k | k in Members(v) ensures k in raw <==> k in ObjectFreeFields(v) {}
    assert raw <= Members(v).Keys && ObjectFreeFields(v) <= Members(v).Keys;
  }

  lemma WalkedFields(reg: Registry, v: Value, updateVersion: bool, m: map<string, Value>)
    requires v.Object? && v.cls in reg
    requires m.Keys * reg[v.cls].schema.Keys == v.fields.Keys * reg[v.cls].schema.Keys
    requires forall k | k in v.fields && k in reg[v.cls].schema ::
      k in m && m[k] == Serialize(reg, v.fields[k], updateVersion)
    ensures WalkedBack(DeserializeMembers(reg, Dict(m), reg[v.cls].schema.Keys), NormalMembers(reg, v, updateVersion))
         == ReturningFields(reg, v, updateVersion) * reg[v.cls].schema.Keys
  {
    var schema := reg[v.cls].schema;
    var d, n := DeserializeMembers(reg, Dict(m), schema.Keys), NormalMembers(reg, v, updateVersion);
    forall k ensures k in WalkedBack(d, n) <==> k in ReturningFields(reg, v, updateVersion) * schema.Keys {
      if k in v.fields && k in schema {
        assert k in m.Keys * schema.Keys;
        assert d[k] == Deserialize(reg, Serialize(reg, v.fields[k], updateVersion));
        assert n[k] == Normal(reg, v.fields[k], updateVersion);
      }
    }
  }

  lemma EntriesAt(schema: map<string, Value>, cls: string, s: map<string, Value>, stamp: map<string, Value>)
    requires schema.Keys !! BUILT_IN_ATTRS && stamp.Keys <= {"persisted_version"}
    ensures var m := Entries(schema, cls, s, stamp);
      && m.Keys * schema.Keys == s.Keys * schema.Keys
      && (forall k | k in s && k in schema :: m[k] == s[k])
      && (forall k | k in s && TakenRaw(schema, k) && k !in stamp :: k in m && m[k] == s[k])
      && (forall k | k in m && TakenRaw(schema, k) :: k in s || k in stamp)
      && (forall k | k in stamp :: k in m && m[k] == stamp[k])
      && "type_" in m && m["type_"] == Text(cls)
  {
  }

  /** An object met by the deserializer stays, its schema attributes walked; it has to have all of them. */
  lemma ObjectsAreWalked(reg: Registry, v: Value)
    requires v.Object?
    ensures var r, schema := Deserialize(reg, v), if v.cls in reg then reg[v.cls].schema.Keys else {};
      && (r.Success? <==> schema <= v.fields.Keys && forall k | k in schema :: Deserialize(reg, v.fields[k]).Success?)
      && (r.Success? ==>
            && r.value.Object? && r.value.cls == v.cls && r.value.fields.Keys == v.fields.Keys
            && forall k | k in v.fields ::
                 r.value.fields[k] == if k in schema then Deserialize(reg, v.fields[k]).value else v.fields[k])
  {
    var schema := SchemaOf(reg, v.cls);
    var walked := DeserializeMembers(reg, v, schema.Keys);
    if schema.Keys <= v.fields.Keys {
      forall k | k in schema ensures walked[k] == Deserialize(reg, v.fields[k]) {}
      assert CollectMap(walked).Success? <==> forall k | k in schema :: Deserialize(reg, v.fields[k]).Success?;
    }
  }

  // ------------------------------------------------- which attributes an object keeps

  /** An object of a known class with its whole schema and, of the attributes of the framework, any of these four. */
  ghost predicate Storable(reg: Registry, v: Value, updateVersion: bool) {
    && v.Object? && v.cls in reg && reg[v.cls].schema.Keys <= v.fields.Keys
    && v.fields.Keys <= reg[v.cls].schema.Keys + {"_id", "_rev", "blame_", "persisted_version"}
    && (forall k | k in v.fields && k !in reg[v.cls].schema :: ObjectFree(v.fields[k]))
    && (forall k | k in reg[v.cls].schema :: Returns(reg, v.fields[k], updateVersion))
  }

  /**
   * The dict it becomes has each of its attributes, serialized, its type and, when it is serialized for
   * persistence and its class has a type version, that version and no other. Nothing else is in it.
   */
  lemma StoredAttributes(reg: Registry, v: Value, updateVersion: bool)
    requires ValidRegistry(reg) && Storable(reg, v, updateVersion)
    ensures var stamped := updateVersion && reg[v.cls].typeVersion.Some?;
      var d := Serialize(reg, v, updateVersion);
      && d.Dict?
      && d.entries.Keys == v.fields.Keys + {"type_"} + (if stamped then {"persisted_version"} else {})
      && d.entries["type_"] == Text(v.cls)
      && (stamped ==> d.entries["persisted_version"] == Number(reg[v.cls].typeVersion.value))
      && forall k | k in v.fields && !(stamped && k == "persisted_version") ::
           d.entries[k] == Serialize(reg, v.fields[k], updateVersion)
  {
    var stamp := VersionStamp(reg, v.cls, updateVersion);
    EntriesAre(reg[v.cls].schema, v.cls, SerializeMembers(reg, v, updateVersion), stamp);
  }

  lemma EntriesAre(schema: map<string, Value>, cls: string, s: map<string, Value>, stamp: map<string, Value>)
    requires s.Keys <= schema.Keys + {"_id", "_rev", "blame_", "persisted_version"}
    requires "type_" !in schema && stamp.Keys <= {"persisted_version"}
    ensures var m := Entries(schema, cls, s, stamp);
      && m.Keys == s.Keys + {"type_"} + stamp.Keys && m["type_"] == Text(cls)
      && (forall k | k in stamp :: m[k] == stamp[k]) && forall k | k in s && k !in stamp :: m[k] == s[k]
  {
    var m := Entries(schema, cls, s, stamp);
    assert m.Keys == s.Keys + {"type_"} + stamp.Keys;
  }

  /** And it comes back with exactly these attributes, and that version. */
  lemma StoredObjectReturns(reg: Registry, v: Value, updateVersion: bool)
    requires ValidRegistry(reg) && Storable(reg, v, updateVersion)
    ensures var stamped := updateVersion && reg[v.cls].typeVersion.Some?;
      var r := Deserialize(reg, Serialize(reg, v, updateVersion));
      && r.Success? && r.value.Object? && r.value.cls == v.cls
      && r.value.fields.Keys == v.fields.Keys + (if stamped then {"persisted_version"} else {})
      && (stamped ==> r.value.fields["persisted_version"] == Number(reg[v.cls].typeVersion.value))
      && forall k | k in v.fields && !(stamped && k == "persisted_version") ::
           r.value.fields[k] == Normal(reg, v.fields[k], updateVersion)
  {
    var schema, stamp := reg[v.cls].schema, VersionStamp(reg, v.cls, updateVersion);
    IsComplete(schema, v.fields.Keys, stamp.Keys, ReturningFields(reg, v, updateVersion), ObjectFreeFields(v));
    KnownObjectReturns(reg, v, updateVersion);
    NormalStamped(reg, v, updateVersion);
  }

  lemma IsComplete(schema: map<string, Value>, keys: set<string>, stamp: set<string>, walked: set<string>,
                   raw: set<string>)
    requires schema.Keys <= keys <= schema.Keys + {"_id", "_rev", "blame_", "persisted_version"}
    requires schema.Keys <= walked && keys - schema.Keys <= raw
    ensures Complete(schema, keys, stamp, walked, raw)
  {
  }

  lemma NormalStamped(reg: Registry, v: Value, updateVersion: bool)
    requires v.Object? && v.cls in reg
    ensures var stamped := updateVersion && reg[v.cls].typeVersion.Some?;
      var n := Normal(reg, v, updateVersion);
      && n.Object? && n.cls == v.cls
      && n.fields.Keys == v.fields.Keys + (if stamped then {"persisted_version"} else {})
      && (stamped ==> n.fields["persisted_version"] == Number(reg[v.cls].typeVersion.value))
      && forall k | k in v.fields && !(stamped && k == "persisted_version") ::
           n.fields[k] == Normal(reg, v.fields[k], updateVersion)
  {
  }

  // ------------------------------------------------- building an object from its dict

  /** Walking a default value of a class gives it back. */
  ghost predicate DefaultsStay(reg: Registry) {
    forall c, k | c in reg && k in reg[c].schema :: Deserialize(reg, reg[c].schema[k]) == Success(reg[c].schema[k])
  }

  /** The entries of a dict that become attributes. */
  function Settable(schema: map<string, Value>, entries: map<string, Value>): map<string, Value> {
    map k | k in entries && (k in schema || TakenRaw(schema, k)) :: entries[k]
  }

  method DropExtra(schema: map<string, Value>, entries: map<string, Value>) returns (kept: map<string, Value>)
    ensures kept == map k | k in entries && (k in schema || k in BUILT_IN_ATTRS) :: entries[k]
  {
    kept := entries;
    var extra := entries.Keys - schema.Keys - BUILT_IN_ATTRS;
    while extra != {}
      invariant extra <= entries.Keys - schema.Keys - BUILT_IN_ATTRS
      invariant forall k :: k in kept <==> k in entries && (k in schema || k in BUILT_IN_ATTRS || k in extra)
      invariant forall k | k in kept :: kept[k] == entries[k]
      decreases extra
    {
      var k :| k in extra;
      kept := kept - {k};
      extra := extra - {k};
    }
  }

  class IonObject {
    const cls: string
    var fields: map<string, Value>

    /** A new object holds the defaults of its class. */
    constructor (cls: string, schema: map<string, Value>)
      ensures this.cls == cls && fields == schema
    {
      this.cls, fields := cls, schema;
    }

    /** Sets the attributes from a dict, after dropping those that neither the schema nor the framework knows. */
    method SetAttributes(schema: map<string, Value>, entries: map<string, Value>)
      requires schema.Keys !! BUILT_IN_ATTRS + {"_attachments", "_conflicts"}
      modifies this
      ensures fields == old(fields) + Settable(schema, entries)
    {
      var kept := DropExtra(schema, entries);
      var todo := kept.Keys;
      while todo != {}
        invariant todo <= kept.Keys
        invariant forall k :: k in fields <==> k in old(fields) || (k in kept && k !in todo && k != "type_")
        invariant forall k | k in fields ::
          fields[k] == if k in kept && k !in todo && k != "type_" then kept[k] else old(fields)[k]
        decreases todo
      {
        var k :| k in todo;
        if k != "type_" && k != "_attachments" && k != "_conflicts" {
          fields := fields[k := kept[k]];
        }
        todo := todo - {k};
      }
      AllSet(schema, entries, kept, old(fields), fields);
    }

    /** Walks each schema attribute and sets it if it changes. */
    method WalkAttributes(reg: Registry, schema: map<string, Value>) returns (ok: bool)
      requires schema.Keys <= fields.Keys
      modifies this
      ensures ok <==> forall k | k in schema :: Deserialize(reg, old(fields)[k]).Success?
      ensures ok ==> fields.Keys == old(fields.Keys)
      ensures ok ==> forall k | k in fields ::
        fields[k] == if k in schema then Deserialize(reg, old(fields)[k]).value else old(fields)[k]
    {
      var todo := schema.Keys;
      while todo != {}
        invariant todo <= schema.Keys && fields.Keys == old(fields.Keys)
        invariant forall k | k in schema && k !in todo :: Deserialize(reg, old(fields)[k]) == Success(fields[k])
        invariant forall k | k in fields && (k !in schema || k in todo) :: fields[k] == old(fields)[k]
        decreases todo
      {
        var k :| k in todo;
        var walked := Deserialize(reg, fields[k]);
        if walked.Failure? { return false; }
        if walked.value != fields[k] {
          fields := fields[k := walked.value];
        }
        todo := todo - {k};
      }
      return true;
    }
  }

  /** What the walk makes of a dict with a type_: a new object with its attributes set, then walked. */
  method BuildObject(reg: Registry, v: Value) returns (r: Result<Value>)
    requires ValidRegistry(reg) && DefaultsStay(reg) && v.Dict? && "type_" in v.entries
    ensures r == Deserialize(reg, v)
  {
    var m := v.entries;
    if !m["type_"].Text? || m["type_"].s !in reg { return Failure; }
    var cls := m["type_"].s;
    var schema := reg[cls].schema;
    var obj := new IonObject(cls, schema);
    obj.SetAttributes(schema, m);
    ghost var before := obj.fields;
    var ok := obj.WalkAttributes(reg, schema);
    BuiltAttributes(reg, v, schema, before, obj.fields, ok);
    return if ok then Success(Object(cls, obj.fields)) else Failure;
  }

  lemma AllSet(schema: map<string, Value>, entries: map<string, Value>, kept: map<string, Value>,
               before: map<string, Value>, fields: map<string, Value>)
    requires kept == map k | k in entries && (k in schema || k in BUILT_IN_ATTRS) :: entries[k]
    requires schema.Keys !! BUILT_IN_ATTRS
    requires forall k :: k in fields <==> k in before || (k in kept && k != "type_")
    requires forall k | k in fields :: fields[k] == if k in kept && k != "type_" then kept[k] else before[k]
    ensures fields == before + Settable(schema, entries)
  {
    var settable := Settable(schema, entries);
    forall k ensures k in settable <==> k in kept && k != "type_" { assert "type_" in BUILT_IN_ATTRS; }
    assert fields.Keys == (before + settable).Keys;
  }

  lemma BuiltAttributes(reg: Registry, v: Value, schema: map<string, Value>, before: map<string, Value>,
                        fields: map<string, Value>, ok: bool)
    requires v.Dict? && schema.Keys !! BUILT_IN_ATTRS
    requires forall k | k in schema :: Deserialize(reg, schema[k]) == Success(schema[k])
    requires before == schema + Settable(schema, v.entries)
    requires ok <==> forall k | k in schema :: Deserialize(reg, before[k]).Success?
    requires ok ==> fields.Keys == before.Keys
    requires ok ==> forall k | k in fields ::
      fields[k] == if k in schema then Deserialize(reg, before[k]).value else before[k]
    ensures Attributes(schema, v.entries, DeserializeMembers(reg, v, schema.Keys))
      == if ok then Success(fields) else Failure
  {
    var walked := DeserializeMembers(reg, v, schema.Keys);
    forall k | k in walked ensures walked[k] == Deserialize(reg, before[k]) { assert before[k] == v.entries[k]; }
    forall k | k in schema ensures k in before && (k !in v.entries ==> before[k] == schema[k]) {}
    if ok {
      forall k | k in fields && k in schema && k !in walked ensures fields[k] == schema[k] {
        assert before[k] == schema[k];
      }
      forall k | k in walked ensures walked[k].Success? && fields[k] == walked[k].value {}
      var w := CollectMap(walked);
      SumOfAttributes(schema, v.entries, w.value, fields);
    } else {
      var k :| k in schema && Deserialize(reg, before[k]).Failure?;
      assert k in walked && walked[k].Failure?;
    }
  }

  lemma SumOfAttributes(schema: map<string, Value>, entries: map<string, Value>, w: map<string, Value>,
                        fields: map<string, Value>)
    requires w.Keys == entries.Keys * schema.Keys && fields.Keys == schema.Keys + Settable(schema, entries).Keys
    requires forall k | k in fields && k in schema :: fields[k] == if k in w then w[k] else schema[k]
    requires forall k | k in fields && k !in schema :: fields[k] == entries[k]
    ensures schema + w + (map k | k in entries && TakenRaw(schema, k) :: entries[k]) == fields
  {
    var sum := schema + w + (map k | k in entries && TakenRaw(schema, k) :: entries[k]);
    assert sum.Keys == fields.Keys;
    forall k | k in sum ensures sum[k] == fields[k] {}
  }
}
