/**
  Matching topics against subscriptions (hil/controller/src/MqttClient.cpp, processPacket)
  compared with the level-wise definition of section 4.7 of MQTT 3.1.1.
 */
module MqttFilter {
  import opened Words

  type bytes = seq<byte>

  const SLASH: byte := '/' as int
  const HASH: byte := '#' as int
  const DOLLAR: byte := '$' as int

  /** `s.substr(0, n)`. */
  function Substr(s: bytes, n: nat): bytes {
    if n <= |s| then s[..n] else s
  }

  /** The test of `processPacket`; an empty filter cannot be asked for its last character. */
  predicate CodeMatches(filter: bytes, topic: bytes)
    requires |filter| > 0
  {
    || filter == topic
    || (filter[|filter| - 1] == HASH && Substr(topic, |filter| - 1) == Substr(filter, |filter| - 1))
  }

  /** The loop over the subscriptions: the filters whose callbacks run, in the order visited. */
  method Dispatch(filters: seq<bytes>, topic: bytes) returns (called: seq<bytes>)
    requires forall k :: 0 <= k < |filters| ==> |filters[k]| > 0
    ensures forall f :: f in called <==> f in filters && CodeMatches(f, topic)
    ensures |called| <= |filters|
  {
    called := [];
    for n := 0 to |filters|
      invariant forall f :: f in called <==> f in filters[..n] && CodeMatches(f, topic)
      invariant |called| <= n
    {
      if CodeMatches(filters[n], topic) {
        called := called + [filters[n]];
      }
    }
    assert filters[..|filters|] == filters;
  }

  // ---------------------------------------------------------------------------------
  // Levels
  // ---------------------------------------------------------------------------------

  /** The levels of a topic: the parts between slashes. */
  function Split(s: bytes): (levels: seq<bytes>)
    ensures |levels| >= 1
  {
    if s == [] then [[]]
    else
      var tail := Split(s[1..]);
      if s[0] == SLASH then [[]] + tail else [[s[0]] + tail[0]] + tail[1..]
  }

  predicate IsLevel(l: bytes) {
    SLASH !in l
  }

  /** `L1/.../Lk/`. */
  function Prefix(levels: seq<bytes>): bytes {
    if levels == [] then [] else levels[0] + [SLASH] + Prefix(levels[1..])
  }

  /** The filter `L1/.../Lk/#`. */
  function HashFilter(levels: seq<bytes>): bytes {
    Prefix(levels) + [HASH]
  }

  /** The topic's first levels agree and it has at least one more. */
  predicate LevelsBelow(levels: seq<bytes>, topic: bytes) {
    |Split(topic)| > |levels| && Split(topic)[..|levels|] == levels
  }

  lemma {:induction false} SplitConcat(level: bytes, rest: bytes)
    requires IsLevel(level)
    ensures Split(level + [SLASH] + rest) == [level] + Split(rest)
  {
    var s := level + [SLASH] + rest;
    if level == [] {
      assert s[1..] == rest;
    } else {
      assert s[1..] == level[1..] + [SLASH] + rest;
      SplitConcat(level[1..], rest);
      assert [s[0]] + level[1..] == level;
    }
  }

  /** A topic with more than one level is its first level, a slash and the rest. */
  lemma {:induction false} SplitHead(topic: bytes) returns (rest: bytes)
    requires |Split(topic)| > 1
    ensures topic == Split(topic)[0] + [SLASH] + rest && Split(rest) == Split(topic)[1..]
  {
    if topic[0] == SLASH {
      rest := topic[1..];
    } else {
      rest := SplitHead(topic[1..]);
      assert Split(topic)[0] == [topic[0]] + Split(topic[1..])[0];
      assert topic == [topic[0]] + topic[1..];
    }
  }

  lemma {:induction false} PrefixIsLevels(levels: seq<bytes>, topic: bytes)
    requires forall k :: 0 <= k < |levels| ==> IsLevel(levels[k])
    ensures Prefix(levels) <= topic <==> LevelsBelow(levels, topic)
    decreases |levels|
  {
    hide Split;
    if levels != [] {
      var head, tail := levels[0], levels[1..];
      var p := Prefix(tail);
      if Prefix(levels) <= topic {
        var rest := topic[|head| + 1..];
        assert topic == head + [SLASH] + rest;
        assert p <= rest;
        SplitConcat(head, rest);
        PrefixIsLevels(tail, rest);
        assert Split(topic)[..|levels|] == [head] + Split(rest)[..|tail|];
      }
      if LevelsBelow(levels, topic) {
        var rest := SplitHead(topic);
        assert Split(topic)[0] == Split(topic)[..|levels|][0] == head;
        assert Split(rest)[..|tail|] == Split(topic)[..|levels|][1..] == tail;
        PrefixIsLevels(tail, rest);
        assert Prefix(levels) == head + [SLASH] + p;
      }
    }
  }

  /** The byte-prefix test of the code is the level-wise relation, for every `#` filter and topic. */
  lemma HashMatchIsLevelwise(levels: seq<bytes>, topic: bytes)
    requires forall k :: 0 <= k < |levels| ==> IsLevel(levels[k])
    ensures CodeMatches(HashFilter(levels), topic) <==> LevelsBelow(levels, topic)
  {
    var p := Prefix(levels);
    var f := HashFilter(levels);
    PrefixIsLevels(levels, topic);
    assert f[..|f| - 1] == p;
    assert p <= topic <==> Substr(topic, |p|) == p;
    if f == topic {
      assert topic[..|p|] == p;
    }
  }

  // ---------------------------------------------------------------------------------
  // The standard
  // ---------------------------------------------------------------------------------

  const PLUS: byte := '+' as int

  /** Sections 4.7.1.2 and 4.7.1.3: `#` covers the parent and all levels below it, `+` one level. */
  predicate LevelsMatch(filter: seq<bytes>, topic: seq<bytes>) {
    if filter == [[HASH]] then true
    else if filter == [] || topic == [] then filter == topic == []
    else LevelCovers(filter[0], topic[0]) && LevelsMatch(filter[1..], topic[1..])
  }

  predicate LevelCovers(f: bytes, l: bytes) {
    f == [PLUS] || f == l
  }

  /** Section 4.7.2: a leading wildcard does not match a topic that begins with a dollar sign. */
  predicate Shielded(filter: bytes, topic: bytes) {
    |filter| > 0 && filter[0] in {HASH, PLUS} && |topic| > 0 && topic[0] == DOLLAR
  }

  predicate StandardMatches(filter: bytes, topic: bytes) {
    LevelsMatch(Split(filter), Split(topic)) && !Shielded(filter, topic)
  }

  /** A level of a valid filter before a closing `#`: no slash, no hash, a plus sign only alone. */
  predicate ValidLevel(l: bytes) {
    IsLevel(l) && HASH !in l && (PLUS in l ==> l == [PLUS])
  }

  predicate ValidLevels(levels: seq<bytes>) {
    forall k :: 0 <= k < |levels| ==> ValidLevel(levels[k])
  }

  /** The first levels of the topic are covered one by one. */
  predicate Covered(levels: seq<bytes>, topic: seq<bytes>) {
    |levels| <= |topic| && forall k :: 0 <= k < |levels| ==> LevelCovers(levels[k], topic[k])
  }

  /** Some `+` stands for a level other than a plus sign. */
  predicate PlusAtWork(levels: seq<bytes>, topic: seq<bytes>) {
    exists k :: 0 <= k < |levels| <= |topic| && levels[k] == [PLUS] && topic[k] != [PLUS]
  }

  predicate IsDollar(topic: bytes) {
    |topic| > 0 && topic[0] == DOLLAR
  }

  lemma {:induction false} MatchIsCovered(levels: seq<bytes>, topic: seq<bytes>)
    requires ValidLevels(levels)
    ensures LevelsMatch(levels + [[HASH]], topic) <==> Covered(levels, topic)
    ensures LevelsMatch(levels, topic) <==> Covered(levels, topic) && |levels| == |topic|
    decreases |levels|
  {
    if levels == [] {
      assert levels + [[HASH]] == [[HASH]];
    } else {
      assert ValidLevel(levels[0]);
      assert (levels + [[HASH]])[1..] == levels[1..] + [[HASH]];
      if topic != [] {
        MatchIsCovered(levels[1..], topic[1..]);
        assert Covered(levels, topic) <==> LevelCovers(levels[0], topic[0]) && Covered(levels[1..], topic[1..]) by {
          CoveredStep(levels, topic);
        }
      }
    }
  }

  lemma CoveredStep(levels: seq<bytes>, topic: seq<bytes>)
    requires levels != [] && topic != []
    ensures Covered(levels, topic) <==> LevelCovers(levels[0], topic[0]) && Covered(levels[1..], topic[1..])
  {
    if LevelCovers(levels[0], topic[0]) && Covered(levels[1..], topic[1..]) {
      forall k | 0 <= k < |levels|
        ensures LevelCovers(levels[k], topic[k])
      {
        assert k > 0 ==> LevelCovers(levels[1..][k - 1], topic[1..][k - 1]);
      }
    }
  }

  lemma {:induction false} SplitHashFilter(levels: seq<bytes>)
    requires forall k :: 0 <= k < |levels| ==> IsLevel(levels[k])
    ensures Split(HashFilter(levels)) == levels + [[HASH]]
  {
    hide Split;
    if levels == [] {
      assert HashFilter(levels) == [HASH];
      SingleHash();
    } else {
      SplitHashFilter(levels[1..]);
      assert HashFilter(levels) == levels[0] + [SLASH] + HashFilter(levels[1..]);
      SplitConcat(levels[0], HashFilter(levels[1..]));
    }
  }

  lemma SingleHash()
    ensures Split([HASH]) == [[HASH]]
  {
    var s: bytes := [HASH];
    assert s[1..] == [];
    assert |Split(s)| == |Split(s[1..])| == 1;
    SingleLevel(s);
  }

  /** Covered without a `+` at work is equality. */
  lemma CoveredIsEqual(levels: seq<bytes>, topic: seq<bytes>)
    requires |levels| <= |topic|
    ensures topic[..|levels|] == levels <==> Covered(levels, topic) && !PlusAtWork(levels, topic)
  {
  }

  lemma FirstByte(topic: bytes)
    ensures IsDollar(topic) <==> IsDollar(Split(topic)[0])
  {
  }

  /** The first byte of a `#` filter is a wildcard exactly if there is no level or the first is `+`. */
  lemma LeadingWildcard(levels: seq<bytes>)
    requires ValidLevels(levels)
    ensures HashFilter(levels)[0] in {HASH, PLUS} <==> levels == [] || levels[0] == [PLUS]
  {
    if levels != [] {
      assert ValidLevel(levels[0]);
      assert levels[0] == [] || HashFilter(levels)[0] == levels[0][0];
    }
  }

  /**
    Where the code departs from the standard on filters L1/../Lk/#. It matches too much on
    dollar topics under a bare `#`. Where no leading wildcard meets a dollar topic, it misses
    exactly the covered topics without a level below, the parent level, and those for which a
    `+` has to stand for another level.
   */
  lemma DepartureFromStandard(levels: seq<bytes>, topic: bytes)
    requires ValidLevels(levels)
    ensures var f, t := HashFilter(levels), Split(topic);
            && (CodeMatches(f, topic) && !StandardMatches(f, topic) <==> levels == [] && IsDollar(topic))
            && (!CodeMatches(f, topic) && StandardMatches(f, topic)
                <==> Covered(levels, t) && !(levels != [] && levels[0] == [PLUS] && IsDollar(topic))
                     && (|t| == |levels| || PlusAtWork(levels, t)))
  {
    hide LevelsMatch, Covered, PlusAtWork, Split;
    var t := Split(topic);
    HashMatchIsLevelwise(levels, topic);
    SplitHashFilter(levels);
    MatchIsCovered(levels, t);
    LeadingWildcard(levels);
    FirstByte(topic);
    if |levels| <= |t| {
      CoveredIsEqual(levels, t);
    }
    CoveredFits(levels, t);
    if levels != [] && |levels| < |t| && t[..|levels|] == levels {
      assert t[..|levels|][0] == t[0];
    }
  }

  lemma CoveredFits(levels: seq<bytes>, topic: seq<bytes>)
    ensures Covered(levels, topic) ==> |levels| <= |topic|
    ensures PlusAtWork(levels, topic) ==> |levels| <= |topic|
  {
  }

  lemma {:induction false} ByteInLevel(s: bytes, b: byte)
    requires b in s && b != SLASH
    ensures exists k :: 0 <= k < |Split(s)| && b in Split(s)[k]
  {
    var levels, tail := Split(s), Split(s[1..]);
    if s[0] == b {
      assert b in levels[0];
    } else {
      ByteInLevel(s[1..], b);
      var k :| 0 <= k < |tail| && b in tail[k];
      assert b in levels[if s[0] == SLASH then k + 1 else k];
    }
  }

  /**
    On filters of levels alone, the code never matches too much, and misses exactly the topics
    for which a `+` has to stand for another level: `+` is compared literally.
   */
  lemma PlusIsLiteral(filter: bytes, topic: bytes)
    requires |filter| > 0 && ValidLevels(Split(filter))
    ensures CodeMatches(filter, topic) ==> StandardMatches(filter, topic)
    ensures var f, t := Split(filter), Split(topic);
            StandardMatches(filter, topic) && !CodeMatches(filter, topic)
            <==> Covered(f, t) && |f| == |t| && !Shielded(filter, topic) && PlusAtWork(f, t)
  {
    hide LevelsMatch, Covered, PlusAtWork, Split;
    var f, t := Split(filter), Split(topic);
    if filter[|filter| - 1] == HASH {
      ByteInLevel(filter, HASH);
    }
    PlainMatch(filter, topic);
    MatchIsCovered(f, t);
    CoveredFits(f, t);
    if |f| <= |t| {
      CoveredIsEqual(f, t);
    }
    assert t[..|t|] == t;
  }

  lemma {:induction false} SplitLevel(l: bytes)
    requires IsLevel(l)
    ensures Split(l) == [l]
  {
    if l != [] {
      SplitLevel(l[1..]);
      assert [l[0]] + l[1..] == l;
    }
  }

  const SENSOR: bytes := [115, 101, 110, 115, 111, 114]

  /** The filter `sensor/#` of main_hil.cpp should match the topic `sensor`, and does not. */
  lemma ParentIsMissed()
    ensures var f := SENSOR + [SLASH, HASH];
            !CodeMatches(f, SENSOR) && StandardMatches(f, SENSOR)
  {
    var f := SENSOR + [SLASH, HASH];
    var levels := [SENSOR];
    SplitLevel(SENSOR);
    assert Prefix(levels[1..]) == [];
    assert Prefix(levels) == SENSOR + [SLASH];
    assert HashFilter(levels) == f;
    DepartureFromStandard(levels, SENSOR);
  }

  /** The filter `+/a` should match the topic `b/a`, and does not. */
  lemma PlusIsMissed()
    ensures var f, t := [PLUS, SLASH, 97], [98, SLASH, 97];
            !CodeMatches(f, t) && StandardMatches(f, t)
  {
    var f: bytes, t: bytes := [PLUS, SLASH, 97], [98, SLASH, 97];
    var a: bytes, b: bytes, plus: bytes := [97], [98], [PLUS];
    SplitLevel(a);
    SplitConcat(plus, a);
    SplitConcat(b, a);
    assert f == plus + [SLASH] + a && t == b + [SLASH] + a;
    var levels := [plus] + [a];
    assert Split(f) == levels && Split(t) == [b] + [a];
    assert ValidLevel(plus) && ValidLevel(a);
    PlusIsLiteral(f, t);
    assert levels[0] == [PLUS] && Split(t)[0] != [PLUS];
  }

  /** The filter `#` should not match the topic `$`, and does. */
  lemma DollarIsMatched()
    ensures CodeMatches([HASH], [DOLLAR]) && !StandardMatches([HASH], [DOLLAR])
  {
  }

  /** A filter without a trailing `#` matches exactly the topics with the same levels. */
  lemma PlainMatch(filter: bytes, topic: bytes)
    requires |filter| > 0 && filter[|filter| - 1] != HASH
    ensures CodeMatches(filter, topic) <==> Split(filter) == Split(topic)
  {
    if Split(filter) == Split(topic) {
      JoinSplit(filter);
      JoinSplit(topic);
    }
  }

  function Join(levels: seq<bytes>): bytes
    requires |levels| >= 1
  {
    if |levels| == 1 then levels[0] else levels[0] + [SLASH] + Join(levels[1..])
  }

  lemma {:induction false} JoinSplit(s: bytes)
    ensures Join(Split(s)) == s
    decreases |s|
  {
    if |Split(s)| > 1 {
      var rest := SplitHead(s);
      JoinSplit(rest);
    } else {
      SingleLevel(s);
    }
  }

  lemma {:induction false} SingleLevel(s: bytes)
    requires |Split(s)| == 1
    ensures Split(s) == [s]
  {
    if s != [] {
      SingleLevel(s[1..]);
      assert s == [s[0]] + s[1..];
    }
  }
}
