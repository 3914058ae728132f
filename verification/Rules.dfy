/** Audit rules: publication, detection and collection of hits. */
module Rules {
  import opened Api
  import opened UserKey

  /** A compiled pattern: its text, and the object that holds it. Two objects may be compiled from one text. */
  datatype Pattern = Pattern(text: string, object_: nat)

  datatype Rule = Rule(id: int, pattern: Option<Pattern>)

  type List = seq<Rule>

  datatype Hit = Hit(uid: int64, rule: int)

  /** Whether a pattern text matches a destination. */
  type Matcher = (string, string) -> bool

  predicate Matches(m: Matcher, rule: Rule, destination: string) {
    rule.pattern.Some? && m(rule.pattern.value.text, destination)
  }

  predicate SomeMatch(m: Matcher, list: List, destination: string) {
    exists i :: 0 <= i < |list| && Matches(m, list[i], destination)
  }

  /** Position of the first rule that matches, or the length of the list. */
  function FirstMatch(m: Matcher, list: List, destination: string): (i: nat)
    ensures i <= |list|
    ensures i < |list| <==> SomeMatch(m, list, destination)
    ensures i < |list| ==> Matches(m, list[i], destination)
    ensures forall j :: 0 <= j < i ==> !Matches(m, list[j], destination)
  {
    if list == [] || Matches(m, list[0], destination) then 0 else 1 + FirstMatch(m, list[1..], destination)
  }

  lemma NoRules(m: Matcher, destination: string)
    ensures !SomeMatch(m, [], destination) && FirstMatch(m, [], destination) == 0
  {
  }

  /** The comparison that decides whether a list is stored: identifiers and pattern texts. */
  predicate SameRule(a: Rule, b: Rule) {
    && a.id == b.id
    && a.pattern.Some? == b.pattern.Some?
    && (a.pattern.Some? ==> a.pattern.value.text == b.pattern.value.text)
  }

  predicate SameList(a: List, b: List) {
    |a| == |b| && forall i :: 0 <= i < |a| ==> SameRule(a[i], b[i])
  }

  /** Lists that compare equal find the same rule for every destination. */
  lemma SameListSameMatch(m: Matcher, a: List, b: List, destination: string)
    requires SameList(a, b)
    ensures FirstMatch(m, a, destination) == FirstMatch(m, b, destination)
  {
    var i, j := FirstMatch(m, a, destination), FirstMatch(m, b, destination);
    assert forall k :: 0 <= k < |a| ==>
      SameRule(a[k], b[k]) && (Matches(m, a[k], destination) <==> Matches(m, b[k], destination));
  }

  /** The hit that is recorded, if any: local rules, numbered -1, and keys without a UID leave none. */
  function Recorded(m: Matcher, list: List, destination: string, key: string): Option<Hit> {
    var i := FirstMatch(m, list, destination);
    if i < |list| && list[i].id != -1 && UidOf(key).Some? then Some(Hit(UidOf(key).value, list[i].id)) else None
  }

  /******* The manager *******/

  class Manager {
    var rules: map<string, List>
    var results: map<string, set<Hit>>

    constructor ()
      ensures rules == map[] && results == map[]
    {
      rules := map[];
      results := map[];
    }

    ghost function Value(): State
      reads this
    {
      State(rules, results)
    }

    /** What is in force afterwards compares equal to the new list; other tags and the hits stay. */
    method UpdateRule(tag: string, list: List)
      modifies this`rules
      ensures rules == Updated(old(rules), tag, list)
      ensures SameList(ListAt(Value(), tag), list)
    {
      if |list| == 0 {
        rules := rules - {tag};
        return;
      }
      if tag in rules {
        var same := SameRuleList(rules[tag], list);
        if same {
          return;
        }
      }
      rules := rules[tag := list];
    }

    /** Rejects exactly when some rule in force matches, and records the first one under the key's UID. */
    method Detect(m: Matcher, tag: string, destination: string, key: string) returns (reject: bool)
      modifies this`results
      ensures reject <==> SomeMatch(m, ListAt(Value(), tag), destination)
      ensures Value() == Apply(m, old(Value()), Detection(tag, destination, key))
    {
      hide SomeMatch, FirstMatch, Atoi;
      reject := false;
      NoRules(m, destination);
      if tag !in rules {
        return;
      }
      var hit;
      reject, hit := Scan(m, rules[tag], destination);
      if reject && hit != -1 {
        var separator := LastIndex(key, '|');
        if separator < 0 || separator == |key| - 1 {
          return;
        }
        var uid := Atoi(key[separator + 1..]);
        if uid.None? {
          return;
        }
        var known := if tag in results then results[tag] else {};
        results := results[tag := known + {Hit(uid.value, hit)}];
      }
    }

    /** Hands out every hit once and forgets it. */
    method GetDetectResult(tag: string) returns (hits: seq<Hit>)
      modifies this`results
      ensures forall h :: h in hits <==> h in old(HitsAt(Value(), tag))
      ensures |hits| == |old(HitsAt(Value(), tag))|
      ensures results == old(results) - {tag}
    {
      hits := [];
      var left := if tag in results then results[tag] else {};
      results := results - {tag};
      ghost var all := left;
      while left != {}
        invariant left <= all && |hits| + |left| == |all|
        invariant forall h :: h in hits <==> h in all && h !in left
        invariant results == old(results) - {tag}
        decreases |left|
      {
        var h :| h in left;
        left := left - {h};
        hits := hits + [h];
      }
    }
  }

  /** The detection loop: stops at the first rule that matches. */
  method Scan(m: Matcher, list: List, destination: string) returns (reject: bool, hit: int)
    ensures reject <==> FirstMatch(m, list, destination) < |list|
    ensures reject <==> SomeMatch(m, list, destination)
    ensures hit == if reject then list[FirstMatch(m, list, destination)].id else -1
  {
    for i := 0 to |list|
      invariant forall j :: 0 <= j < i ==> !Matches(m, list[j], destination)
    {
      if list[i].pattern.Some? && m(list[i].pattern.value.text, destination) {
        assert Matches(m, list[i], destination);
        return true, list[i].id;
      }
    }
    return false, -1;
  }

  method SameRuleList(old_: List, new_: List) returns (same: bool)
    ensures same <==> SameList(old_, new_)
  {
    if |old_| != |new_| {
      return false;
    }
    for i := 0 to |old_|
      invariant forall j :: 0 <= j < i ==> SameRule(old_[j], new_[j])
    {
      if old_[i].id != new_[i].id {
        return false;
      }
      if old_[i].pattern.None? || new_[i].pattern.None? {
        if old_[i].pattern != new_[i].pattern {
          return false;
        }
      } else if old_[i].pattern.value.text != new_[i].pattern.value.text {
        return false;
      }
    }
    return true;
  }

  /******* Whole runs *******/

  datatype Op =
    | Update(tag: string, list: List)
    | Detection(tag: string, destination: string, key: string)
    | Collect(tag: string)

  datatype State = State(rules: map<string, List>, results: map<string, set<Hit>>)

  const START := State(map[], map[])

  function ListAt(s: State, tag: string): List {
    if tag in s.rules then s.rules[tag] else []
  }

  function HitsAt(s: State, tag: string): set<Hit> {
    if tag in s.results then s.results[tag] else {}
  }

  function HitSet(h: Option<Hit>): set<Hit> {
    if h.None? then {} else {h.value}
  }

  /** An empty list removes the tag; a list that compares equal is not stored again. */
  function Updated(rules: map<string, List>, tag: string, list: List): map<string, List> {
    if list == [] then rules - {tag}
    else if tag in rules && SameList(rules[tag], list) then rules
    else rules[tag := list]
  }

  function Apply(m: Matcher, s: State, op: Op): State {
    match op
    case Update(tag, list) =>
      s.(rules := Updated(s.rules, tag, list))
    case Detection(tag, destination, key) =>
      var hit := Recorded(m, ListAt(s, tag), destination, key);
      if hit.None? then s else s.(results := s.results[tag := HitsAt(s, tag) + {hit.value}])
    case Collect(tag) => s.(results := s.results - {tag})
  }

  function After(m: Matcher, run: seq<Op>): State {
    if run == [] then START else Apply(m, After(m, run[..|run| - 1]), run[|run| - 1])
  }

  /** The list most recently handed to `UpdateRule` for a tag. */
  function LatestList(run: seq<Op>, tag: string): List {
    if run == [] then []
    else
      var last := run[|run| - 1];
      if last.Update? && last.tag == tag then last.list else LatestList(run[..|run| - 1], tag)
  }

  /** The hits due under a tag: those of every detection since the last collection, by the list then latest. */
  function HitsDue(m: Matcher, run: seq<Op>, tag: string): set<Hit> {
    if run == [] then {}
    else
      var before := run[..|run| - 1];
      var last := run[|run| - 1];
      if last.Collect? && last.tag == tag then {}
      else if last.Detection? && last.tag == tag then
        HitsDue(m, before, tag) + HitSet(Recorded(m, LatestList(before, tag), last.destination, last.key))
      else HitsDue(m, before, tag)
  }

  /** Skipping the store when lists compare equal cannot be seen: rules and hits are those of the latest lists. */
  lemma {:induction false} RunMeans(m: Matcher, run: seq<Op>, tag: string)
    ensures SameList(ListAt(After(m, run), tag), LatestList(run, tag))
    ensures HitsAt(After(m, run), tag) == HitsDue(m, run, tag)
  {
    hide UidOf;
    if run != [] {
      var before := run[..|run| - 1];
      RunMeans(m, before, tag);
      var last := run[|run| - 1];
      if last.Detection? && last.tag == tag {
        RecordedSame(m, ListAt(After(m, before), tag), LatestList(before, tag), last.destination, last.key);
      }
    }
  }

  lemma RecordedSame(m: Matcher, a: List, b: List, destination: string, key: string)
    requires SameList(a, b)
    ensures Recorded(m, a, destination, key) == Recorded(m, b, destination, key)
  {
    hide UidOf;
    SameListSameMatch(m, a, b, destination);
    var i := FirstMatch(m, a, destination);
    assert i < |a| ==> SameRule(a[i], b[i]);
  }

  /** After every run a connection is rejected exactly when some rule of the latest list matches it. */
  lemma {:induction false} RejectsIffLatestMatches(m: Matcher, run: seq<Op>, tag: string, destination: string)
    ensures FirstMatch(m, ListAt(After(m, run), tag), destination) < |ListAt(After(m, run), tag)|
       <==> SomeMatch(m, LatestList(run, tag), destination)
  {
    RunMeans(m, run, tag);
    SameListSameMatch(m, ListAt(After(m, run), tag), LatestList(run, tag), destination);
  }

  /** The UID recorded for a hit is the one printed into the user's key, whatever separators the email holds. */
  lemma RecordsPrintedUid(m: Matcher, list: List, destination: string, tag: string, email: string, uid: int64)
    ensures var i := FirstMatch(m, list, destination);
      Recorded(m, list, destination, FormatUserKey(tag, email, uid))
      == if i < |list| && list[i].id != -1 then Some(Hit(uid, list[i].id)) else None
  {
    hide UidOf, FormatUserKey;
    UidOfKey(tag, email, uid);
  }
}
