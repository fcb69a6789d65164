/** Event routing by topic strings (pyon/ion/event.py): publisher keys, subscriber patterns, and what they match. */
module EventTopics {

  // ------------------------------------------------- dotted strings

  /** ".".join(words) */
  function Join(words: seq<string>): string {
    if words == [] then "" else if |words| == 1 then words[0] else words[0] + "." + Join(words[1..])
  }

  /** The words a broker sees in a dotted string. */
  function Split(s: string): (r: seq<string>)
    ensures |r| > 0
  {
    if s == "" then [""]
    else
      var rest := Split(s[1..]);
      if s[0] == '.' then [""] + rest else [[s[0]] + rest[0]] + rest[1..]
  }

  predicate DotFree(w: string) { '.' !in w }

  /** A word without dots that is not a wildcard; an empty one means that a field is not given. */
  predicate Plain(w: string) { DotFree(w) && w != "*" && w != "#" }

  predicate AllDotFree(words: seq<string>) { forall w | w in words :: DotFree(w) }

  lemma {:induction false} SplitWord(w: string)
    requires DotFree(w)
    ensures Split(w) == [w]
  {
    if w != "" {
      SplitWord(w[1..]);
      assert [w[0]] + w[1..] == w;
    }
  }

  lemma {:induction false} SplitDot(w: string, s: string)
    requires DotFree(w)
    ensures Split(w + "." + s) == [w] + Split(s)
  {
    var all := w + "." + s;
    if w == "" {
      assert all[1..] == s;
    } else {
      SplitDot(w[1..], s);
      assert all[1..] == w[1..] + "." + s && all[0] == w[0];
      var rest := [w[1..]] + Split(s);
      assert rest[0] == w[1..] && rest[1..] == Split(s);
      assert [w[0]] + w[1..] == w;
    }
  }

  lemma {:induction false} SplitJoin(words: seq<string>)
    requires words != [] && AllDotFree(words)
    ensures Split(Join(words)) == words
  {
    if |words| == 1 {
      SplitWord(words[0]);
    } else {
      SplitJoin(words[1..]);
      SplitDot(words[0], Join(words[1..]));
    }
  }

  lemma {:induction false} JoinSplit(s: string)
    ensures Join(Split(s)) == s && AllDotFree(Split(s))
    decreases |s|
  {
    if s != "" {
      JoinSplit(s[1..]);
      assert s == [s[0]] + s[1..];
      if s[0] == '.' { JoinDot(Split(s[1..])); } else { JoinChar(s[0], Split(s[1..])); }
    }
  }

  lemma JoinDot(rest: seq<string>)
    requires rest != [] && AllDotFree(rest)
    ensures Join([""] + rest) == "." + Join(rest) && AllDotFree([""] + rest)
  {
    assert ([""] + rest)[1..] == rest;
    assert "" + "." == ".";
  }

  lemma JoinChar(c: char, rest: seq<string>)
    requires rest != [] && AllDotFree(rest) && c != '.'
    ensures var words := [[c] + rest[0]] + rest[1..];
      Join(words) == [c] + Join(rest) && AllDotFree(words)
  {
    var words := [[c] + rest[0]] + rest[1..];
    assert words[1..] == rest[1..] && rest[0] in rest;
    if |rest| > 1 { assert [c] + (rest[0] + "." + Join(rest[1..])) == [c] + rest[0] + "." + Join(rest[1..]); }
    forall w | w in words ensures DotFree(w) { assert w == words[0] || w in rest; }
  }

  lemma DotFreeSplit(s: string)
    ensures DotFree(s) <==> |Split(s)| == 1
  {
    JoinSplit(s);
    if DotFree(s) { SplitWord(s); }
    if |Split(s)| == 1 { assert s == Split(s)[0] && Split(s)[0] in Split(s); }
  }

  lemma {:induction false} JoinAppend(a: seq<string>, b: seq<string>)
    requires a != [] && b != []
    ensures Join(a + b) == Join(a) + "." + Join(b)
  {
    if |a| == 1 {
      assert (a + b)[1..] == b;
    } else {
      JoinAppend(a[1..], b);
      assert (a + b)[1..] == a[1..] + b;
      assert Join(a + b) == a[0] + "." + (Join(a[1..]) + "." + Join(b));
    }
  }

  // ------------------------------------------------- topic matching, section 3.1.3.3 of AMQP 0-9-1

  /** "*" stands for exactly one word, "#" for any number of words. */
  predicate Matches(pattern: seq<string>, key: seq<string>)
    decreases |pattern| + |key|
  {
    if pattern == [] then key == []
    else if pattern[0] == "#" then Matches(pattern[1..], key) || (key != [] && Matches(pattern, key[1..]))
    else key != [] && (pattern[0] == "*" || pattern[0] == key[0]) && Matches(pattern[1..], key[1..])
  }

  /** "#" lets the rest of the pattern match at any later word. */
  lemma {:induction false} HashMatches(pattern: seq<string>, key: seq<string>)
    ensures Matches(["#"] + pattern, key) <==> exists i | 0 <= i <= |key| :: Matches(pattern, key[i..])
    decreases |key|
  {
    var p := ["#"] + pattern;
    assert p[1..] == pattern && key[0..] == key;
    if key != [] {
      HashMatches(pattern, key[1..]);
      if i :| 0 <= i <= |key[1..]| && Matches(pattern, key[1..][i..]) {
        assert key[1..][i..] == key[i + 1..];
      }
      if i :| 0 <= i <= |key| && Matches(pattern, key[i..]) {
        if i > 0 { assert key[1..][i - 1..] == key[i..]; }
      }
    }
  }

  // ------------------------------------------------- the two topic functions

  /** The fields of an event that routing uses; "" stands for a field that is not set. */
  datatype Event = Event(type_: string, baseTypes: seq<string>, subType: string, originType: string, origin: string)

  datatype Subscription = Subscription(eventType: string, origin: string, subType: string, originType: string)

  function Or(value: string, default: string): string {
    if value != "" then value else default
  }

  function Reversed(words: seq<string>): (r: seq<string>)
    ensures |r| == |words| && forall i | 0 <= i < |r| :: r[i] == words[|words| - 1 - i]
    ensures forall w :: w in r <==> w in words
  {
    if words == [] then [] else Reversed(words[1..]) + [words[0]]
  }

  /** The class names in resolution order without the two root classes and the class itself. */
  function Extends(mro: seq<string>, type_: string): seq<string> {
    if mro == [] then []
    else if mro[0] == "IonObjectBase" || mro[0] == "object" || mro[0] == type_ then Extends(mro[1..], type_)
    else [mro[0]] + Extends(mro[1..], type_)
  }

  /** publish_event_object fills in the base types before the topic is built. */
  function Prepared(e: Event, mro: seq<string>): Event {
    e.(baseTypes := Extends(mro, e.type_))
  }

  /** EventPublisher._topic */
  function RoutingKey(e: Event): string {
    Join(Reversed(e.baseTypes)) + "." + e.type_ + "." + Or(e.subType, "_") + "." + Or(e.originType, "_") + "."
      + e.origin
  }

  /** BaseEventSubscriberMixin._topic */
  function Pattern(s: Subscription): string {
    var eventType := if s.eventType == "Event" then "Event.#"
                     else if s.eventType != "" then "#." + s.eventType + ".#"
                     else "#";
    eventType + "." + Or(s.subType, "*.#") + "." + Or(s.originType, "*") + "." + Or(s.origin, "*")
  }

  /** The types of an event from the root down, as the routing key gives them. */
  function TypeWords(e: Event): seq<string> {
    (if e.baseTypes == [] then [""] else Reversed(e.baseTypes)) + [e.type_]
  }

  /** The words of a routing key: the types, the first two fields, and the words of the origin. */
  function KeyWords(e: Event): seq<string> {
    TypeWords(e) + [Or(e.subType, "_"), Or(e.originType, "_")] + Split(e.origin)
  }

  function TailWords(s: Subscription): seq<string> {
    (if s.subType != "" then [s.subType] else ["*", "#"]) + [Or(s.originType, "*"), Or(s.origin, "*")]
  }

  function PatternWords(s: Subscription): seq<string> {
    (if s.eventType == "Event" then ["Event"] else if s.eventType != "" then ["#", s.eventType] else [])
    + (["#"] + TailWords(s))
  }

  ghost predicate DotFreeEvent(e: Event) {
    AllDotFree(e.baseTypes) && DotFree(e.type_) && DotFree(e.subType) && DotFree(e.originType)
  }

  ghost predicate PlainSubscription(s: Subscription) {
    Plain(s.eventType) && Plain(s.origin) && Plain(s.subType) && Plain(s.originType)
  }

  /** Only the origin is taken apart: its dots make further words. */
  lemma RoutingKeyWords(e: Event)
    requires DotFreeEvent(e)
    ensures Split(RoutingKey(e)) == KeyWords(e)
  {
    RoutingKeyString(e);
    JoinSplit(e.origin);
    KeyWordsDotFree(e);
    SplitJoin(KeyWords(e));
  }

  lemma RoutingKeyString(e: Event)
    ensures RoutingKey(e) == Join(KeyWords(e))
  {
    var base := if e.baseTypes == [] then [""] else Reversed(e.baseTypes);
    var b, c, d := e.type_, Or(e.subType, "_"), Or(e.originType, "_");
    JoinThree(b, c, d);
    JoinSplit(e.origin);
    JoinParts(base, [b, c, d], Split(e.origin));
    assert KeyWords(e) == base + [b, c, d] + Split(e.origin);
    KeyPieces(Join(base), b, c, d, e.origin);
  }

  lemma JoinParts(a: seq<string>, b: seq<string>, c: seq<string>)
    requires a != [] && b != [] && c != []
    ensures Join(a + b + c) == Join(a) + "." + Join(b) + "." + Join(c)
  {
    JoinAppend(a, b);
    JoinAppend(a + b, c);
  }

  lemma KeyPieces(a: string, b: string, c: string, d: string, e: string)
    ensures a + "." + b + "." + c + "." + d + "." + e == a + "." + (b + "." + c + "." + d) + "." + e
  {
  }

  lemma KeyWordsDotFree(e: Event)
    requires DotFreeEvent(e) && AllDotFree(Split(e.origin))
    ensures AllDotFree(KeyWords(e))
  {
    forall w | w in KeyWords(e) ensures DotFree(w) {
      assert w in Reversed(e.baseTypes) || w == "" || w in [e.type_, Or(e.subType, "_"), Or(e.originType, "_")]
        || w in Split(e.origin);
    }
  }

  lemma JoinThree(a: string, b: string, c: string)
    ensures Join([a, b, c]) == a + "." + b + "." + c
  {
    assert [a, b, c][1..] == [b, c] && [b, c][1..] == [c];
    assert Join([b, c]) == b + "." + c;
  }

  function HeadWords(t: string): seq<string> {
    if t == "Event" then ["Event", "#"] else if t != "" then ["#", t, "#"] else ["#"]
  }

  lemma PatternHasWords(s: Subscription)
    requires PlainSubscription(s)
    ensures Split(Pattern(s)) == PatternWords(s)
  {
    PatternString(s);
    JoinAppend(HeadWords(s.eventType), TailWords(s));
    PatternParts(s);
    SplitJoin(PatternWords(s));
  }

  lemma PatternParts(s: Subscription)
    requires PlainSubscription(s)
    ensures PatternWords(s) == HeadWords(s.eventType) + TailWords(s) && AllDotFree(PatternWords(s))
  {
    assert AllDotFree(HeadWords(s.eventType)) && AllDotFree(TailWords(s));
  }

  lemma PatternString(s: Subscription)
    ensures Pattern(s) == Join(HeadWords(s.eventType)) + "." + Join(TailWords(s))
  {
    var sub := if s.subType != "" then [s.subType] else ["*", "#"];
    var ends := [Or(s.originType, "*"), Or(s.origin, "*")];
    HeadString(s.eventType);
    JoinTwo("*", "#");
    JoinTwo(ends[0], ends[1]);
    JoinAppend(sub, ends);
    assert Join(sub) == Or(s.subType, "*.#");
    assert Join(ends) == ends[0] + "." + ends[1];
    PatternPieces(Join(HeadWords(s.eventType)), Join(sub), ends[0], ends[1]);
  }

  lemma PatternPieces(a: string, b: string, c: string, d: string)
    ensures a + "." + b + "." + c + "." + d == a + "." + (b + "." + (c + "." + d))
  {
  }

  lemma HeadString(t: string)
    ensures Join(HeadWords(t)) == if t == "Event" then "Event.#" else if t != "" then "#." + t + ".#" else "#"
  {
    JoinTwo("Event", "#");
    JoinTwo(t, "#");
    assert ["#", t, "#"][1..] == [t, "#"];
  }

  lemma JoinTwo(a: string, b: string)
    ensures Join([a, b]) == a + "." + b
  {
    assert [a, b][1..] == [b];
  }

  // ------------------------------------------------- the routing theorem

  /** Whether a subscription asks for the three trailing words of a key. */
  predicate FieldsSelected(s: Subscription, subType: string, originType: string, origin: string) {
    && (s.subType == "" || s.subType == subType)
    && (s.originType == "" || s.originType == originType)
    && (s.origin == "" || s.origin == origin)
  }

  lemma TwoWords(a: string, b: string, key: seq<string>)
    requires a != "#" && b != "#"
    ensures Matches([a, b], key) <==> |key| == 2 && (a == "*" || a == key[0]) && (b == "*" || b == key[1])
  {
    assert [a, b][1..] == [b] && [b][1..] == [];
    if |key| >= 1 {
      assert Matches([a, b], key) <==> (a == "*" || a == key[0]) && Matches([b], key[1..]);
      if |key| >= 2 {
        assert Matches([b], key[1..]) <==> (b == "*" || b == key[1]) && Matches([], key[2..]) by {
          assert key[1..][1..] == key[2..];
        }
      }
    }
  }

  /** After "#", the tail of a pattern selects by the last three words. */
  lemma TailMatches(s: Subscription, key: seq<string>)
    requires PlainSubscription(s)
    ensures Matches(["#"] + TailWords(s), key)
        <==> |key| >= 3 && FieldsSelected(s, key[|key| - 3], key[|key| - 2], key[|key| - 1])
  {
    var n := |key|;
    var ends := [Or(s.originType, "*"), Or(s.origin, "*")];
    forall i | 0 <= i <= n
      ensures Matches(TailWords(s), key[i..])
          <==> n - i >= 3 && (s.subType == "" || n - i == 3) && FieldsSelected(s, key[n - 3], key[n - 2], key[n - 1])
    {
      TailHere(s, key[i..]);
    }
    HashMatches(TailWords(s), key);
    if n >= 3 { assert Matches(TailWords(s), key[n - 3..]) <==> FieldsSelected(s, key[n - 3], key[n - 2], key[n - 1]); }
  }

  lemma TailHere(s: Subscription, key: seq<string>)
    requires PlainSubscription(s)
    ensures Matches(TailWords(s), key)
        <==>
          && |key| >= 3 && (s.subType == "" || |key| == 3)
          && FieldsSelected(s, key[|key| - 3], key[|key| - 2], key[|key| - 1])
  {
    var ot, o := Or(s.originType, "*"), Or(s.origin, "*");
    var first := if s.subType != "" then s.subType else "*";
    var rest := if s.subType != "" then [ot, o] else ["#"] + [ot, o];
    assert TailWords(s) == [first] + rest && TailWords(s)[1..] == rest;
    if |key| > 0 {
      var k := key[1..];
      assert Matches(TailWords(s), key) <==> (first == "*" || first == key[0]) && Matches(rest, k);
      if s.subType != "" { TwoWords(ot, o, k); } else { HashTwoWords(ot, o, k); }
      if |k| >= 2 { assert k[|k| - 2] == key[|key| - 2] && k[|k| - 1] == key[|key| - 1]; }
    }
  }

  lemma HashTwoWords(a: string, b: string, key: seq<string>)
    requires a != "#" && b != "#"
    ensures Matches(["#"] + [a, b], key)
        <==> |key| >= 2 && (a == "*" || a == key[|key| - 2]) && (b == "*" || b == key[|key| - 1])
  {
    var n := |key|;
    HashMatches([a, b], key);
    forall i | 0 <= i <= n
      ensures Matches([a, b], key[i..])
        <==> i == n - 2 && (a == "*" || a == key[n - 2]) && (b == "*" || b == key[n - 1])
    {
      TwoWords(a, b, key[i..]);
    }
    if n >= 2 {
      assert Matches([a, b], key[n - 2..]) <==> (a == "*" || a == key[n - 2]) && (b == "*" || b == key[n - 1]);
    }
  }

  /** A pattern selects a key by some word before the last three, and by those three. */
  lemma WordsMatch(s: Subscription, key: seq<string>)
    requires PlainSubscription(s) && |key| >= 4
    ensures Matches(PatternWords(s), key) <==>
      && (s.eventType == "" || if s.eventType == "Event" then key[0] == "Event" else s.eventType in key[..|key| - 3])
      && FieldsSelected(s, key[|key| - 3], key[|key| - 2], key[|key| - 1])
  {
    var tail := ["#"] + TailWords(s);
    TailMatches(s, key);
    if s.eventType == "" {
      assert PatternWords(s) == tail;
    } else if s.eventType == "Event" {
      assert PatternWords(s) == ["Event"] + tail && PatternWords(s)[1..] == tail;
      TailMatches(s, key[1..]);
    } else {
      TypedMatches(s, key);
    }
  }

  lemma TypedMatches(s: Subscription, key: seq<string>)
    requires PlainSubscription(s) && |key| >= 4 && s.eventType != "" && s.eventType != "Event"
    ensures Matches(PatternWords(s), key) <==>
      s.eventType in key[..|key| - 3] && FieldsSelected(s, key[|key| - 3], key[|key| - 2], key[|key| - 1])
  {
    var typed := [s.eventType] + (["#"] + TailWords(s));
    assert PatternWords(s) == ["#"] + typed;
    HashMatches(typed, key);
    forall i | 0 <= i <= |key| ensures Matches(typed, key[i..]) <==> TypedHere(s, key, i) { TypedAt(s, key, i); }
    if s.eventType in key[..|key| - 3] {
      var i :| 0 <= i < |key| - 3 && key[..|key| - 3][i] == s.eventType;
      assert Matches(typed, key[i..]) <==> TypedHere(s, key, i);
    }
  }

  /** The event type stands at i, and the fields match. */
  predicate TypedHere(s: Subscription, key: seq<string>, i: nat)
    requires |key| >= 4
  {
    i < |key| - 3 && key[i] == s.eventType && FieldsSelected(s, key[|key| - 3], key[|key| - 2], key[|key| - 1])
  }

  lemma TypedAt(s: Subscription, key: seq<string>, i: nat)
    requires PlainSubscription(s) && |key| >= 4 && s.eventType != "" && i <= |key|
    ensures Matches([s.eventType] + (["#"] + TailWords(s)), key[i..]) <==> TypedHere(s, key, i)
  {
    assert ([s.eventType] + (["#"] + TailWords(s)))[1..] == ["#"] + TailWords(s);
    if i < |key| {
      assert key[i..][1..] == key[i + 1..];
      TailMatches(s, key[i + 1..]);
    }
  }

  /** mro is the resolution order of an event class: the class, its bases up to Event, the two root classes. */
  ghost predicate EventClass(mro: seq<string>, type_: string) {
    && |mro| >= 3 && mro == [type_] + BasesIn(mro) + ["IonObjectBase", "object"]
    && (forall w | w in mro :: DotFree(w) && w != "")
    && type_ != "IonObjectBase" && type_ != "object"
    && (forall w | w in BasesIn(mro) :: w != type_ && w != "IonObjectBase" && w != "object")
    && (if type_ == "Event" then BasesIn(mro) == [] else BasesIn(mro) != [] && mro[|mro| - 3] == "Event")
  }

  /** The base classes of an event class, without the roots. */
  function BasesIn(mro: seq<string>): seq<string>
    requires |mro| >= 3
  {
    mro[1..|mro| - 2]
  }

  /** The base types that are published are all base classes of the event, in their order. */
  lemma ExtendsAreBases(mro: seq<string>, type_: string)
    requires EventClass(mro, type_)
    ensures Extends(mro, type_) == BasesIn(mro)
  {
    var bases, roots := BasesIn(mro), ["IonObjectBase", "object"];
    assert mro[0] == type_ && mro[1..] == bases + roots;
    ExtendsKeeps(bases, roots, type_);
    assert roots[1..] == ["object"] && Extends(["object"], type_) == [];
    assert bases + [] == bases;
  }

  lemma {:induction false} ExtendsKeeps(bases: seq<string>, rest: seq<string>, type_: string)
    requires forall w | w in bases :: w != type_ && w != "IonObjectBase" && w != "object"
    ensures Extends(bases + rest, type_) == bases + Extends(rest, type_)
  {
    if bases == [] {
      assert bases + rest == rest;
    } else {
      var all := bases + rest;
      assert all[0] == bases[0] && all[0] in bases && all[1..] == bases[1..] + rest;
      assert forall w | w in bases[1..] :: w in bases;
      ExtendsKeeps(bases[1..], rest, type_);
      assert bases == [bases[0]] + bases[1..];
    }
  }

  /** The event type asked for is in the event's inheritance chain; that of an event of exact type Event is empty. */
  predicate TypeSelected(e: Event, mro: seq<string>, eventType: string) {
    eventType == ""
    || (e.type_ != "Event" && eventType in mro && eventType != "IonObjectBase" && eventType != "object")
  }

  predicate Selected(e: Event, mro: seq<string>, s: Subscription) {
    TypeSelected(e, mro, s.eventType) && FieldsSelected(s, Or(e.subType, "_"), Or(e.originType, "_"), e.origin)
  }

  /** The broker routes a published event to a subscription. */
  predicate Routed(e: Event, mro: seq<string>, s: Subscription) {
    Matches(Split(Pattern(s)), Split(RoutingKey(Prepared(e, mro))))
  }

  /** The types of a published event start at Event, or are empty and the type for that class itself. */
  lemma Published(e: Event, mro: seq<string>)
    requires EventClass(mro, e.type_)
    ensures var p := Prepared(e, mro);
      && p.baseTypes == BasesIn(mro) && AllDotFree(p.baseTypes) && DotFree(e.type_)
      && (TypeWords(p)[0] == "Event" <==> e.type_ != "Event")
      && forall w :: w in mro <==> w == e.type_ || w in p.baseTypes || w == "IonObjectBase" || w == "object"
  {
    ExtendsAreBases(mro, e.type_);
    var bases := BasesIn(mro);
    assert mro[0] in mro && forall w | w in bases :: w in mro;
    if bases != [] { assert bases[|bases| - 1] == mro[|mro| - 3]; }
    forall w ensures w in mro <==> w == e.type_ || w in bases || w == "IonObjectBase" || w == "object" {
      assert w in mro <==> w in [e.type_] + bases + ["IonObjectBase", "object"];
    }
  }

  /** What the words of the key select, wherever the dots of the origin have moved them. */
  lemma RoutedByWords(e: Event, mro: seq<string>, s: Subscription)
    requires EventClass(mro, e.type_) && DotFree(e.subType) && DotFree(e.originType) && PlainSubscription(s)
    ensures var key := KeyWords(Prepared(e, mro)); var n := |key| - 3;
      n > 0 && (Routed(e, mro, s)
          <==> ChainHas(e, key[..n], s.eventType) && FieldsSelected(s, key[n], key[n + 1], key[n + 2]))
  {
    var p := Prepared(e, mro);
    Published(e, mro);
    RoutingKeyWords(p);
    PatternHasWords(s);
    WordsMatch(s, KeyWords(p));
    assert KeyWords(p)[0] == "Event" <==> e.type_ != "Event";
  }

  predicate ChainHas(e: Event, chain: seq<string>, eventType: string) {
    eventType == "" || if eventType == "Event" then e.type_ != "Event" else eventType in chain
  }

  lemma TypeWordsSelect(e: Event, mro: seq<string>, eventType: string)
    requires EventClass(mro, e.type_)
    ensures ChainHas(e, TypeWords(Prepared(e, mro)), eventType) <==> TypeSelected(e, mro, eventType)
  {
    var p := Prepared(e, mro);
    Published(e, mro);
    assert TypeWords(p) == (if p.baseTypes == [] then [""] else Reversed(p.baseTypes)) + [e.type_];
  }

  /**
   * A subscription receives an event if and only if each field it gives equals the published word and its
   * event type is absent or in the event's inheritance chain; an event of exact type Event is reached only
   * by subscriptions without an event type.
   */
  lemma Routing(e: Event, mro: seq<string>, s: Subscription)
    requires EventClass(mro, e.type_)
    requires DotFree(e.subType) && DotFree(e.originType) && DotFree(e.origin)
    requires PlainSubscription(s)
    ensures Routed(e, mro, s) <==> Selected(e, mro, s)
  {
    var p := Prepared(e, mro);
    SplitWord(e.origin);
    RoutedByWords(e, mro, s);
    TypeWordsSelect(e, mro, s.eventType);
    assert KeyWords(p)[..|KeyWords(p)| - 3] == TypeWords(p);
  }

  // ------------------------------------------------- origins with dots

  /** A word that a subscription can ask for. */
  predicate Named(w: string) { Plain(w) && w != "" }

  /** No subscription tells the two words apart. */
  predicate Alike(a: string, b: string) { a == b || (!Named(a) && !Named(b)) }

  /** The words that a dotted origin moves in among the types: as many of the fields as there are dots. */
  function Moved(e: Event): seq<string> {
    var words := Split(e.origin);
    ([Or(e.subType, "_"), Or(e.originType, "_")] + words)[..|words| - 1]
  }

  /** The words that stand where the three fields are looked for. */
  function Shown(e: Event): (r: seq<string>)
    ensures |r| == 3
  {
    var words := Split(e.origin);
    ([Or(e.subType, "_"), Or(e.originType, "_")] + words)[|words| - 1..]
  }

  lemma KeyParts(e: Event, mro: seq<string>)
    ensures var key := KeyWords(Prepared(e, mro)); var n := |key| - 3;
      n >= 0 && key[..n] == TypeWords(Prepared(e, mro)) + Moved(e)
      && key[n] == Shown(e)[0] && key[n + 1] == Shown(e)[1] && key[n + 2] == Shown(e)[2]
  {
    var types, words := TypeWords(Prepared(e, mro)), Split(e.origin);
    ThreeParts(types, Moved(e), Shown(e));
    assert [Or(e.subType, "_"), Or(e.originType, "_")] + words == Moved(e) + Shown(e);
    assert KeyWords(Prepared(e, mro)) == types + (Moved(e) + Shown(e));
  }

  lemma ThreeParts(a: seq<string>, b: seq<string>, c: seq<string>)
    requires |c| == 3
    ensures var all := a + (b + c); var n := |all| - 3;
      all[..n] == a + b && all[n] == c[0] && all[n + 1] == c[1] && all[n + 2] == c[2]
  {
  }

  /** The dots of the origin change nothing that a subscription can ask for. */
  ghost predicate Undisturbed(e: Event, mro: seq<string>) {
    && Alike(Shown(e)[0], Or(e.subType, "_")) && Alike(Shown(e)[1], Or(e.originType, "_"))
      && Alike(Shown(e)[2], e.origin)
    && forall w | w in Moved(e) && Named(w) && w != "Event" :: TypeSelected(e, mro, w)
  }

  lemma ChainIs(e: Event, mro: seq<string>, eventType: string)
    requires EventClass(mro, e.type_)
    ensures ChainHas(e, TypeWords(Prepared(e, mro)) + Moved(e), eventType)
      <==> TypeSelected(e, mro, eventType) || (eventType in Moved(e) && eventType != "Event")
  {
    TypeWordsSelect(e, mro, eventType);
  }

  /** Routing is exact for every subscription if the words moved make no difference that one can ask for. */
  lemma RoutedIfUndisturbed(e: Event, mro: seq<string>, s: Subscription)
    requires EventClass(mro, e.type_) && DotFree(e.subType) && DotFree(e.originType)
    requires Undisturbed(e, mro) && PlainSubscription(s)
    ensures Routed(e, mro, s) <==> Selected(e, mro, s)
  {
    RoutedByWords(e, mro, s);
    KeyParts(e, mro);
    ChainIs(e, mro, s.eventType);
  }

  /** Otherwise some subscription that gives a single field is misrouted. */
  lemma MisroutedIfDisturbed(e: Event, mro: seq<string>) returns (s: Subscription)
    requires EventClass(mro, e.type_) && DotFree(e.subType) && DotFree(e.originType) && !Undisturbed(e, mro)
    ensures PlainSubscription(s) && (Routed(e, mro, s) <==> !Selected(e, mro, s))
  {
    var none := Subscription("", "", "", "");
    if !Alike(Shown(e)[0], Or(e.subType, "_")) {
      s := none.(subType := if Named(Shown(e)[0]) then Shown(e)[0] else Or(e.subType, "_"));
    } else if !Alike(Shown(e)[1], Or(e.originType, "_")) {
      s := none.(originType := if Named(Shown(e)[1]) then Shown(e)[1] else Or(e.originType, "_"));
    } else if !Alike(Shown(e)[2], e.origin) {
      s := none.(origin := if Named(Shown(e)[2]) then Shown(e)[2] else e.origin);
    } else {
      var w :| w in Moved(e) && Named(w) && w != "Event" && !TypeSelected(e, mro, w);
      s := none.(eventType := w);
    }
    RoutedByWords(e, mro, s);
    KeyParts(e, mro);
    ChainIs(e, mro, s.eventType);
  }

  /** Whatever the origin: routing is exact for all subscriptions exactly when the dots disturb nothing. */
  lemma RoutingExact(e: Event, mro: seq<string>)
    requires EventClass(mro, e.type_) && DotFree(e.subType) && DotFree(e.originType)
    ensures (forall s | PlainSubscription(s) :: Routed(e, mro, s) <==> Selected(e, mro, s)) <==> Undisturbed(e, mro)
  {
    if Undisturbed(e, mro) {
      forall s | PlainSubscription(s) ensures Routed(e, mro, s) <==> Selected(e, mro, s) {
        RoutedIfUndisturbed(e, mro, s);
      }
    } else {
      var s := MisroutedIfDisturbed(e, mro);
    }
  }

  /** An origin with a dot is misrouted: a subscription to the part after its last dot receives the event. */
  lemma DottedOrigin(e: Event, mro: seq<string>, x: string, y: string)
    requires EventClass(mro, e.type_) && DotFree(e.subType) && DotFree(e.originType)
    requires e.origin == x + "." + y && Named(y)
    ensures var s := Subscription("", y, "", "");
      Routed(e, mro, s) && !Selected(e, mro, s)
  {
    var s, words := Subscription("", y, "", ""), Split(e.origin);
    SplitLast(x, y);
    RoutedByWords(e, mro, s);
    KeyParts(e, mro);
    assert e.origin[|x|] == '.';
  }

  lemma {:induction false} SplitLast(x: string, y: string)
    requires DotFree(y)
    ensures Split(x + "." + y)[|Split(x + "." + y)| - 1] == y
    ensures |Split(x + "." + y)| >= 2
    decreases |x|
  {
    var s := x + "." + y;
    if x == "" {
      assert s[1..] == y;
      SplitWord(y);
    } else {
      assert s[1..] == x[1..] + "." + y;
      SplitLast(x[1..], y);
    }
  }

  /** Where the last part of the origin is a word to ask for, routing is exact if and only if the origin has no dot. */
  lemma DotFreeOrigins(e: Event, mro: seq<string>)
    requires EventClass(mro, e.type_) && DotFree(e.subType) && DotFree(e.originType)
    requires Named(Split(e.origin)[|Split(e.origin)| - 1])
    ensures (forall s | PlainSubscription(s) :: Routed(e, mro, s) <==> Selected(e, mro, s)) <==> DotFree(e.origin)
  {
    RoutingExact(e, mro);
    DotsDisturb(e, mro);
  }

  lemma DotsDisturb(e: Event, mro: seq<string>)
    requires Named(Split(e.origin)[|Split(e.origin)| - 1])
    ensures Undisturbed(e, mro) <==> DotFree(e.origin)
  {
    DotFreeSplit(e.origin);
    if DotFree(e.origin) { SplitWord(e.origin); }
  }

  // ------------------------------------------------- subscriptions to origins with dots

  /** The words of a pattern before those of the origin. */
  function PatternHead(s: Subscription): seq<string> {
    (if s.eventType == "Event" then ["Event"] else if s.eventType != "" then ["#", s.eventType] else [])
    + ["#"] + (if s.subType != "" then [s.subType] else ["*", "#"]) + [Or(s.originType, "*")]
  }

  /** A word at the end of a pattern that is no wildcard is the last of the key. */
  lemma {:induction false} LastWord(pattern: seq<string>, w: string, key: seq<string>)
    requires w != "*" && w != "#"
    ensures Matches(pattern + [w], key)
      <==> key != [] && key[|key| - 1] == w && Matches(pattern, key[..|key| - 1])
    decreases |pattern| + |key|
  {
    var p, n := pattern + [w], |key| - 1;
    if pattern == [] {
      assert p[1..] == [];
      if key != [] { assert Matches(p, key) <==> key[0] == w && Matches([], key[1..]); }
    } else {
      assert p[0] == pattern[0] && p[1..] == pattern[1..] + [w];
      LastWord(pattern[1..], w, key);
      if key != [] {
        LastWord(pattern, w, key[1..]);
        LastWord(pattern[1..], w, key[1..]);
        if n > 0 { assert key[1..][..n - 1] == key[..n][1..] && key[1..][n - 1] == key[n]; }
      }
    }
  }

  /** So are several. */
  lemma {:induction false} LastWords(pattern: seq<string>, words: seq<string>, key: seq<string>)
    requires forall w | w in words :: w != "*" && w != "#"
    ensures Matches(pattern + words, key) <==>
      && |key| >= |words| && key[|key| - |words|..] == words && Matches(pattern, key[..|key| - |words|])
    decreases |words|
  {
    var m, n := |words| - 1, |key| - 1;
    if words == [] {
      assert pattern + words == pattern && key[..|key|] == key;
    } else {
      assert pattern + words == (pattern + words[..m]) + [words[m]];
      assert words[m] in words && forall w | w in words[..m] :: w in words;
      LastWord(pattern + words[..m], words[m], key);
      if key != [] {
        LastWords(pattern, words[..m], key[..n]);
        if n >= m {
          assert key[n - m..] == key[..n][n - m..] + [key[n]] && words == words[..m] + [words[m]];
          assert key[..n][..n - m] == key[..n - m];
        }
      }
    }
  }

  lemma HeadIs(s: Subscription)
    requires PlainSubscription(s.(origin := ""))
    ensures AllDotFree(PatternHead(s))
    ensures Pattern(s) == Join(PatternHead(s)) + "." + Or(s.origin, "*")
  {
    var plain, head := s.(origin := ""), PatternHead(s);
    PatternParts(plain);
    assert PatternWords(plain) == head + ["*"];
    assert forall w | w in head :: w in PatternWords(plain);
    PatternHasWords(plain);
    JoinSplit(Pattern(plain));
    JoinAppend(head, ["*"]);
    BeforeOrigin(s, Join(head));
  }

  lemma BeforeOrigin(s: Subscription, before: string)
    requires Pattern(s.(origin := "")) == before + "." + "*"
    ensures Pattern(s) == before + "." + Or(s.origin, "*")
  {
    var plain := s.(origin := "");
    var eventType := if s.eventType == "Event" then "Event.#" else if s.eventType != "" then "#." + s.eventType + ".#"
                     else "#";
    var first := eventType + "." + Or(s.subType, "*.#") + "." + Or(s.originType, "*");
    assert Pattern(plain) == first + "." + "*";
    assert Pattern(plain)[..|first|] == first && Pattern(plain)[..|before|] == before;
  }

  /** The words of the origin asked for stand at the end of the pattern. */
  lemma DottedPatternWords(s: Subscription)
    requires PlainSubscription(s.(origin := "")) && s.origin != ""
    ensures Split(Pattern(s)) == PatternHead(s) + Split(s.origin)
  {
    HeadIs(s);
    JoinSplit(s.origin);
    JoinAppend(PatternHead(s), Split(s.origin));
    SplitJoin(PatternHead(s) + Split(s.origin));
  }

  /** What comes before the origin asked for selects by two words and by the types before them. */
  predicate HeadSelects(s: Subscription, key: seq<string>) {
    var n := |key|;
    && n >= (if s.eventType == "" then 2 else 3)
    && (s.eventType == "" || if s.eventType == "Event" then key[0] == "Event" else s.eventType in key[..n - 2])
    && FieldsSelected(s.(origin := ""), key[n - 2], key[n - 1], "")
  }

  lemma HeadMatches(s: Subscription, key: seq<string>)
    requires PlainSubscription(s.(origin := ""))
    ensures Matches(PatternHead(s), key) <==> HeadSelects(s, key)
  {
    var plain, more := s.(origin := "w"), key + ["w"];
    LastWord(PatternHead(s), "w", more);
    assert PatternWords(plain) == PatternHead(s) + ["w"] && more[..|key|] == key;
    if |key| >= 3 { LongHead(s, key); } else { ShortKey(plain, more); }
  }

  lemma LongHead(s: Subscription, key: seq<string>)
    requires PlainSubscription(s.(origin := "")) && |key| >= 3
    ensures Matches(PatternWords(s.(origin := "w")), key + ["w"]) <==> HeadSelects(s, key)
  {
    var more := key + ["w"];
    WordsMatch(s.(origin := "w"), more);
    assert more[..|more| - 3] == key[..|key| - 2];
  }

  /** A key of less than four words has no room for a type. */
  lemma ShortKey(s: Subscription, key: seq<string>)
    requires PlainSubscription(s) && |key| < 4
    ensures Matches(PatternWords(s), key) <==>
      s.eventType == "" && |key| == 3 && FieldsSelected(s, key[0], key[1], key[2])
  {
    var tail := ["#"] + TailWords(s);
    TailMatches(s, key);
    if s.eventType == "" {
      assert PatternWords(s) == tail;
    } else if s.eventType == "Event" {
      assert PatternWords(s) == ["Event"] + tail && PatternWords(s)[1..] == tail;
      if key != [] { TailMatches(s, key[1..]); }
    } else {
      var typed := [s.eventType] + tail;
      assert PatternWords(s) == ["#"] + typed && typed[1..] == tail;
      HashMatches(typed, key);
      forall i | 0 <= i <= |key| ensures !Matches(typed, key[i..]) {
        if i < |key| { TailMatches(s, key[i..][1..]); }
      }
    }
  }

  /** A subscription to an origin of one or more parts, each of which is a word to ask for. */
  ghost predicate NamesOrigin(s: Subscription) {
    PlainSubscription(s.(origin := "")) && s.origin != "" && forall w | w in Split(s.origin) :: Named(w)
  }

  /**
   * A subscription to an origin with dots looks for its parts at the end of the key, for the two fields just
   * before, and for the type before those. So it receives what it selects of all events whose origins have as many
   * parts.
   */
  lemma DottedSubscription(e: Event, mro: seq<string>, s: Subscription)
    requires EventClass(mro, e.type_) && DotFree(e.subType) && DotFree(e.originType) && NamesOrigin(s)
    ensures var key, parts := KeyWords(Prepared(e, mro)), Split(s.origin);
      var n := |key| - |parts|;
      Routed(e, mro, s) <==> n >= 0 && key[n..] == parts && HeadSelects(s, key[..n])
    ensures |Split(s.origin)| == |Split(e.origin)| ==> (Routed(e, mro, s) <==> Selected(e, mro, s))
  {
    var p, parts := Prepared(e, mro), Split(s.origin);
    var key := KeyWords(p);
    var n := |key| - |parts|;
    Published(e, mro);
    RoutingKeyWords(p);
    DottedPatternWords(s);
    LastWords(PatternHead(s), parts, key);
    if n >= 0 { HeadMatches(s, key[..n]); }
    if |parts| == |Split(e.origin)| { SameParts(e, mro, s); }
  }

  lemma SameParts(e: Event, mro: seq<string>, s: Subscription)
    requires EventClass(mro, e.type_) && |Split(s.origin)| == |Split(e.origin)| && s.origin != ""
    ensures var key := KeyWords(Prepared(e, mro)); var n := |key| - |Split(s.origin)|;
      n >= 0 && (Selected(e, mro, s) <==> key[n..] == Split(s.origin) && HeadSelects(s, key[..n]))
  {
    var key := KeyWords(Prepared(e, mro));
    var n := |key| - |Split(s.origin)|;
    Published(e, mro);
    TypeWordsSelect(e, mro, s.eventType);
    var head := TypeWords(Prepared(e, mro)) + [Or(e.subType, "_"), Or(e.originType, "_")];
    assert key[..n] == head && key[n..] == Split(e.origin) && head[..n - 2] == TypeWords(Prepared(e, mro));
    assert head[0] == "Event" <==> e.type_ != "Event";
    JoinSplit(s.origin);
    JoinSplit(e.origin);
  }
}
