/**
 Topic filters (filter.go): validation and matching, level by level.
 */
module TopicFilter {
  import opened Bytes

  const SLASH: byte := 0x2F
  const PLUS: byte := 0x2B
  const HASH: byte := 0x23

  type Level = seq<byte>

  // ---- Levels ----

  /** `strings.Split(s, "/")`. */
  function Split(s: seq<byte>): (r: seq<Level>)
    ensures |r| >= 1
  {
    if s == [] then [[]]
    else
      var r := Split(s[1..]);
      if s[0] == SLASH then [[]] + r else [[s[0]] + r[0]] + r[1..]
  }

  /** The levels with slashes between them. */
  function Join(levels: seq<Level>): seq<byte>
    requires levels != []
  {
    if |levels| == 1 then levels[0] else levels[0] + ([SLASH] + Join(levels[1..]))
  }

  predicate SlashFree(levels: seq<Level>) {
    forall i :: 0 <= i < |levels| ==> SLASH !in levels[i]
  }

  lemma {:induction false} JoinSplit(s: seq<byte>)
    ensures SlashFree(Split(s)) && Join(Split(s)) == s
  {
    if s != [] {
      JoinSplit(s[1..]);
      var r, t := Split(s), Split(s[1..]);
      assert s == [s[0]] + s[1..];
      if s[0] == SLASH {
        assert r[1..] == t;
        assert Join(r) == [] + ([SLASH] + Join(t));
      } else {
        assert r[0] == [s[0]] + t[0];
        if |t| > 1 {
          assert r[1..] == t[1..];
          Associate([s[0]], t[0], [SLASH] + Join(t[1..]));
        }
      }
    }
  }

  lemma {:induction false} SplitLevel(level: Level)
    requires SLASH !in level
    ensures Split(level) == [level]
  {
    if level != [] {
      SplitLevel(level[1..]);
      assert level == [level[0]] + level[1..];
    }
  }

  lemma {:induction false} SplitSlash(level: Level, rest: seq<byte>)
    requires SLASH !in level
    ensures Split(level + ([SLASH] + rest)) == [level] + Split(rest)
  {
    var s := level + ([SLASH] + rest);
    if level == [] {
      assert s[1..] == rest;
    } else {
      SplitSlash(level[1..], rest);
      assert s[1..] == level[1..] + ([SLASH] + rest);
      assert level == [level[0]] + level[1..];
      assert ([level[1..]] + Split(rest))[1..] == Split(rest);
    }
  }

  /** Splitting and joining are inverse to each other; so splitting is injective. */
  lemma {:induction false} SplitJoin(levels: seq<Level>)
    requires levels != [] && SlashFree(levels)
    ensures Split(Join(levels)) == levels
  {
    if |levels| == 1 {
      SplitLevel(levels[0]);
    } else {
      SplitJoin(levels[1..]);
      SplitSlash(levels[0], Join(levels[1..]));
      assert levels == [levels[0]] + levels[1..];
    }
  }

  // ---- Validation ----

  /** The check made on one level. */
  predicate LevelValid(level: Level, last: bool) {
    (PLUS in level ==> |level| == 1) && (HASH in level ==> |level| == 1 && last)
  }

  predicate LevelsValid(levels: seq<Level>) {
    forall i :: 0 <= i < |levels| ==> LevelValid(levels[i], i == |levels| - 1)
  }

  /** Beyond either end of the string, or at a separator. */
  predicate Boundary(s: seq<byte>, i: int) {
    i < 0 || i >= |s| || s[i] == SLASH
  }

  predicate CharValid(s: seq<byte>, i: nat)
    requires i < |s|
  {
    (s[i] == PLUS ==> Boundary(s, i - 1) && Boundary(s, i + 1)) &&
    (s[i] == HASH ==> Boundary(s, i - 1) && i + 1 == |s|)
  }

  /** The wildcard rules of section 4.7.1, character by character. */
  predicate CharsValid(s: seq<byte>) {
    forall i :: 0 <= i < |s| ==> CharValid(s, i)
  }

  /** `newTopicFilter`. */
  method NewTopicFilter(filter: seq<byte>) returns (r: Outcome<seq<Level>>)
    ensures r == if filter != [] && CharsValid(filter) then Ok(Split(filter)) else Err(InvalidTopicFilter)
  {
    if |filter| == 0 {
      return Err(InvalidTopicFilter);
    }
    var tf := Split(filter);
    ValidationExact(filter);
    var i := 0;
    while i < |tf|
      invariant 0 <= i <= |tf| && forall k :: 0 <= k < i ==> LevelValid(tf[k], k == |tf| - 1)
    {
      var f := tf[i];
      if PLUS in f {
        if |f| != 1 {
          return Err(InvalidTopicFilter);
        }
      }
      if HASH in f {
        if |f| != 1 || i != |tf| - 1 {
          return Err(InvalidTopicFilter);
        }
      }
      i := i + 1;
    }
    return Ok(tf);
  }

  lemma OneLevelValid(level: Level)
    requires SLASH !in level
    ensures CharsValid(level) <==> LevelValid(level, true)
  {
    if CharsValid(level) {
      forall i | 0 <= i < |level| && level[i] in {PLUS, HASH} ensures |level| == 1 {
        assert CharValid(level, i);
      }
    }
  }

  /** A level before a separator. */
  lemma FirstCharValid(level: Level, rest: seq<byte>, i: nat)
    requires SLASH !in level && i < |level|
    ensures var s := level + ([SLASH] + rest); CharValid(s, i) <==> CharValid(level, i) && level[i] != HASH
  {
    var s := level + ([SLASH] + rest);
    assert s[|level|] == SLASH;
  }

  lemma RestCharValid(level: Level, rest: seq<byte>, i: nat)
    requires i < |rest|
    ensures var s := level + ([SLASH] + rest); CharValid(s, |level| + 1 + i) <==> CharValid(rest, i)
  {
    var s, n := level + ([SLASH] + rest), |level| + 1;
    assert s[n - 1] == SLASH && s[n + i] == rest[i];
    assert i > 0 ==> s[n + i - 1] == rest[i - 1];
    assert i + 1 < |rest| ==> s[n + i + 1] == rest[i + 1];
  }

  lemma SeparatedValid(level: Level, rest: seq<byte>)
    requires SLASH !in level
    ensures CharsValid(level + ([SLASH] + rest)) <==> CharsValid(level) && HASH !in level && CharsValid(rest)
  {
    var s := level + ([SLASH] + rest);
    if CharsValid(s) {
      forall i | 0 <= i < |level| ensures CharValid(level, i) && level[i] != HASH {
        FirstCharValid(level, rest, i);
      }
      forall i | 0 <= i < |rest| ensures CharValid(rest, i) {
        RestCharValid(level, rest, i);
      }
    }
    if CharsValid(level) && HASH !in level && CharsValid(rest) {
      forall i | 0 <= i < |s| ensures CharValid(s, i) {
        if i < |level| {
          FirstCharValid(level, rest, i);
        } else if i > |level| {
          RestCharValid(level, rest, i - |level| - 1);
        }
      }
    }
  }

  lemma LevelsValidStep(levels: seq<Level>)
    requires |levels| > 1
    ensures LevelsValid(levels) <==> LevelValid(levels[0], false) && LevelsValid(levels[1..])
  {
    var t := levels[1..];
    assert forall i :: 0 < i < |levels| ==> levels[i] == t[i - 1];
    if LevelValid(levels[0], false) && LevelsValid(t) {
      forall i | 0 <= i < |levels| ensures LevelValid(levels[i], i == |levels| - 1) {
        if i > 0 {
          assert LevelValid(t[i - 1], i - 1 == |t| - 1);
        }
      }
    }
    if LevelsValid(levels) {
      forall i | 0 <= i < |t| ensures LevelValid(t[i], i == |t| - 1) {
        assert LevelValid(levels[i + 1], i + 1 == |levels| - 1);
      }
    }
  }

  lemma {:induction false} JoinedValid(levels: seq<Level>)
    requires levels != [] && SlashFree(levels)
    ensures CharsValid(Join(levels)) <==> LevelsValid(levels)
  {
    OneLevelValid(levels[0]);
    if |levels| > 1 {
      SeparatedValid(levels[0], Join(levels[1..]));
      JoinedValid(levels[1..]);
      LevelsValidStep(levels);
    }
  }

  /** The check by levels accepts exactly the strings of the grammar by characters. */
  lemma ValidationExact(filter: seq<byte>)
    ensures LevelsValid(Split(filter)) <==> CharsValid(filter)
  {
    JoinSplit(filter);
    JoinedValid(Split(filter));
  }

  // ---- Matching ----

  /** `+` takes one level, `#` all levels that are left. */
  predicate Matches(f: seq<Level>, t: seq<Level>) {
    if f == [] then t == []
    else f[0] == [HASH] || (t != [] && (f[0] == [PLUS] || f[0] == t[0]) && Matches(f[1..], t[1..]))
  }

  /** `topicFilter.Match`. */
  method Match(f: seq<Level>, topic: seq<byte>) returns (r: bool)
    ensures r == Matches(f, Split(topic))
  {
    var ts := Split(topic);
    var i := 0;
    while i < |f|
      invariant 0 <= i <= |f| && i <= |ts|
      invariant Matches(f, ts) == Matches(f[i..], ts[i..])
    {
      var t := f[i];
      if t == [HASH] {
        return true;
      }
      if i >= |ts| {
        return false;
      }
      if t != [PLUS] && t != ts[i] {
        return false;
      }
      assert f[i..][1..] == f[i + 1..] && ts[i..][1..] == ts[i + 1..];
      i := i + 1;
    }
    return i == |ts|;
  }

  predicate Agrees(f: Level, t: Level) {
    f == [PLUS] || f == t
  }

  /** The rule of sections 4.7.1.2 and 4.7.1.3, all levels at once. */
  predicate Covers(f: seq<Level>, t: seq<Level>)
    requires f != []
  {
    var n := |f| - 1;
    if f[n] == [HASH] then n <= |t| && forall i :: 0 <= i < n ==> Agrees(f[i], t[i])
    else |t| == |f| && forall i :: 0 <= i < |f| ==> Agrees(f[i], t[i])
  }

  lemma CoversStep(f: seq<Level>, t: seq<Level>)
    requires |f| > 1 && t != []
    ensures Covers(f, t) <==> Agrees(f[0], t[0]) && Covers(f[1..], t[1..])
  {
    var f', t' := f[1..], t[1..];
    assert f'[|f'| - 1] == f[|f| - 1];
    assert forall i :: 0 <= i < |f'| ==> f'[i] == f[i + 1];
    assert forall i :: 0 <= i < |t'| ==> t'[i] == t[i + 1];
    var n := if f[|f| - 1] == [HASH] then |f| - 1 else |f|;
    if Covers(f, t) {
      forall i | 0 <= i < n - 1 ensures Agrees(f'[i], t'[i]) {
        assert Agrees(f[i + 1], t[i + 1]);
      }
    }
    if Agrees(f[0], t[0]) && Covers(f', t') {
      forall i | 0 <= i < n ensures Agrees(f[i], t[i]) {
        if i > 0 {
          assert Agrees(f'[i - 1], t'[i - 1]);
        }
      }
    }
  }

  /** For a valid filter the scan decides the rule of the standard. */
  lemma {:induction false} MatchesExact(f: seq<Level>, t: seq<Level>)
    requires f != [] && LevelsValid(f)
    ensures Matches(f, t) <==> Covers(f, t)
  {
    if |f| == 1 {
      assert f[1..] == [];
    } else {
      LevelsValidStep(f);
      assert f[0] != [HASH] by {
        assert HASH in [HASH];
      }
      if t != [] {
        CoversStep(f, t);
        MatchesExact(f[1..], t[1..]);
      }
    }
  }

  predicate WildcardFree(s: seq<byte>) {
    PLUS !in s && HASH !in s
  }

  lemma LevelBytes(s: seq<byte>, i: nat)
    requires i < |Split(s)|
    ensures forall b :: b in Split(s)[i] ==> b in s
  {
    JoinSplit(s);
    JoinBytes(Split(s), i);
  }

  lemma {:induction false} JoinBytes(levels: seq<Level>, i: nat)
    requires i < |levels|
    ensures forall b :: b in levels[i] ==> b in Join(levels)
  {
    if i > 0 {
      JoinBytes(levels[1..], i - 1);
    }
  }

  lemma Literal(s: seq<byte>)
    requires WildcardFree(s)
    ensures LevelsValid(Split(s)) && forall i :: 0 <= i < |Split(s)| ==> WildcardFree(Split(s)[i])
  {
    forall i | 0 <= i < |Split(s)| ensures WildcardFree(Split(s)[i]) {
      LevelBytes(s, i);
    }
  }

  /** A filter without wildcards matches a topic exactly when the strings are equal. */
  lemma LiteralMatch(filter: seq<byte>, topic: seq<byte>)
    requires WildcardFree(filter)
    ensures Matches(Split(filter), Split(topic)) <==> filter == topic
  {
    var f, t := Split(filter), Split(topic);
    Literal(filter);
    MatchesExact(f, t);
    JoinSplit(filter);
    JoinSplit(topic);
    assert PLUS in [PLUS] && HASH in [HASH];
    assert Covers(f, t) <==> f == t;
  }

  lemma {:induction false} JoinConcat(a: seq<Level>, b: seq<Level>)
    requires a != [] && b != []
    ensures Join(a + b) == Join(a) + ([SLASH] + Join(b))
  {
    assert (a + b)[1..] == a[1..] + b;
    if |a| > 1 {
      JoinConcat(a[1..], b);
      Associate(a[0], [SLASH] + Join(a[1..]), [SLASH] + Join(b));
      Associate([SLASH], Join(a[1..]), [SLASH] + Join(b));
    } else {
      assert a[1..] + b == b;
    }
  }

  lemma SplitPrefix(a: seq<byte>, rest: seq<byte>)
    ensures Split(a + ([SLASH] + rest)) == Split(a) + Split(rest)
  {
    JoinSplit(a);
    JoinSplit(rest);
    JoinConcat(Split(a), Split(rest));
    SplitJoin(Split(a) + Split(rest));
  }

  /** What `prefix/#` matches: the prefix itself and everything below it, and nothing else. */
  lemma SubtreeMatch(prefix: seq<byte>, topic: seq<byte>)
    requires WildcardFree(prefix)
    ensures CharsValid(prefix + [SLASH, HASH])
    ensures Matches(Split(prefix + [SLASH, HASH]), Split(topic)) <==> topic == prefix || prefix + [SLASH] <= topic
  {
    var p, t := Split(prefix), Split(topic);
    var filter := prefix + [SLASH, HASH];
    SplitPrefix(prefix, [HASH]);
    SplitLevel([HASH]);
    assert filter == prefix + ([SLASH] + [HASH]);
    var f := Split(filter);
    assert f == p + [[HASH]];
    Literal(prefix);
    SubtreeValid(p);
    ValidationExact(filter);
    MatchesExact(f, t);
    assert PLUS in [PLUS];
    assert Covers(f, t) <==> p <= t;
    BelowPrefix(prefix, topic);
  }

  lemma SubtreeValid(p: seq<Level>)
    requires LevelsValid(p) && forall i :: 0 <= i < |p| ==> HASH !in p[i]
    ensures LevelsValid(p + [[HASH]])
  {
    var f := p + [[HASH]];
    forall i | 0 <= i < |f| ensures LevelValid(f[i], i == |f| - 1) {
      if i < |p| {
        assert LevelValid(p[i], i == |p| - 1);
      }
    }
  }

  lemma PrefixBelow(prefix: seq<byte>, topic: seq<byte>)
    requires Split(prefix) <= Split(topic)
    ensures topic == prefix || prefix + [SLASH] <= topic
  {
    var p, t := Split(prefix), Split(topic);
    JoinSplit(prefix);
    JoinSplit(topic);
    var more := t[|p|..];
    assert t == p + more;
    if more != [] {
      JoinConcat(p, more);
      Associate(prefix, [SLASH], Join(more));
    } else {
      assert t == p;
    }
  }

  /** A prefix of levels is a prefix of the string that ends at a separator or at the end. */
  lemma BelowPrefix(prefix: seq<byte>, topic: seq<byte>)
    ensures Split(prefix) <= Split(topic) <==> topic == prefix || prefix + [SLASH] <= topic
  {
    if Split(prefix) <= Split(topic) {
      PrefixBelow(prefix, topic);
    }
    if prefix + [SLASH] <= topic {
      var rest := topic[|prefix| + 1..];
      assert topic == (prefix + [SLASH]) + rest;
      Associate(prefix, [SLASH], rest);
      SplitPrefix(prefix, rest);
    }
  }

  // ---- Topics that start with `$` ----

  const DOLLAR: byte := 0x24

  predicate Reserved(topic: seq<byte>) {
    topic != [] && topic[0] == DOLLAR
  }

  /** The first level is a wildcard. */
  predicate OpensWild(f: seq<Level>)
    requires f != []
  {
    f[0] == [PLUS] || f[0] == [HASH]
  }

  /** What the standard wants: the rule of section 4.7.1, and no wildcard at the front for a reserved topic (4.7.2). */
  predicate Conforming(f: seq<Level>, topic: seq<byte>)
    requires f != []
  {
    Covers(f, Split(topic)) && !(OpensWild(f) && Reserved(topic))
  }

  /**
   `Match` decides otherwise than the standard exactly for a reserved topic that a filter with a
   wildcard in front covers.
   */
  lemma ReservedExact(f: seq<Level>, topic: seq<byte>)
    requires f != [] && LevelsValid(f)
    ensures Matches(f, Split(topic)) == Conforming(f, topic)
            <==> !(OpensWild(f) && Reserved(topic) && Covers(f, Split(topic)))
  {
    MatchesExact(f, Split(topic));
  }

  /** A reserved topic that such a filter covers: `$` for the wildcard in front, and the rest as it is. */
  function ReservedTopic(f: seq<Level>): seq<byte>
    requires f != []
  {
    Join([[DOLLAR]] + f[1..])
  }

  lemma ReservedMatch(f: seq<Level>)
    requires f != [] && SlashFree(f) && LevelsValid(f) && OpensWild(f)
    ensures Reserved(ReservedTopic(f)) && Matches(f, Split(ReservedTopic(f)))
  {
    var t := [[DOLLAR]] + f[1..];
    forall i | 0 <= i < |t| ensures SLASH !in t[i] {
      if i > 0 {
        assert t[i] == f[i];
      }
    }
    SplitJoin(t);
    MatchesExact(f, t);
    assert forall i :: 0 < i < |f| ==> t[i] == f[i];
    assert Join(t)[0] == t[0][0];
    assert HASH in [HASH] && LevelValid(f[0], 0 == |f| - 1);
    assert Covers(f, t);
  }

  /**
   A valid filter is matched as the standard wants on every topic if and only if it does not start
   with a wildcard.
   */
  lemma ConformsExact(filter: seq<byte>)
    requires filter != [] && CharsValid(filter)
    ensures (forall topic: seq<byte> :: Matches(Split(filter), Split(topic)) == Conforming(Split(filter), topic))
            <==> !OpensWild(Split(filter))
  {
    var f := Split(filter);
    JoinSplit(filter);
    ValidationExact(filter);
    forall topic: seq<byte> ensures !OpensWild(f) ==> Matches(f, Split(topic)) == Conforming(f, topic) {
      ReservedExact(f, topic);
    }
    if OpensWild(f) {
      ReservedMatch(f);
      assert !Conforming(f, ReservedTopic(f));
    }
  }

  /** Two such inputs: `#` matches `$S/a` and so does `+/a`. */
  lemma ReservedInputs()
    ensures var topic: seq<byte> := [DOLLAR, 0x53, SLASH, 0x61];
            Matches(Split([HASH]), Split(topic)) && Matches(Split([PLUS, SLASH, 0x61]), Split(topic)) &&
            !Conforming(Split([HASH]), topic) && !Conforming(Split([PLUS, SLASH, 0x61]), topic)
  {
    var topic: seq<byte> := [DOLLAR, 0x53, SLASH, 0x61];
    SplitLevel([HASH]);
    SplitLevel([0x61]);
    SplitSlash([PLUS], [0x61]);
    SplitSlash([DOLLAR, 0x53], [0x61]);
    assert [PLUS, SLASH, 0x61] == [PLUS] + ([SLASH] + [0x61]);
    assert topic == [DOLLAR, 0x53] + ([SLASH] + [0x61]);
    var a: Level := [0x61];
    var f: seq<Level>, t: seq<Level> := [[PLUS]] + [a], [[DOLLAR, 0x53]] + [a];
    assert f[1..] == [a] && t[1..] == [a] && [a][1..] == [];
    assert Matches(f[1..], t[1..]);
  }
}
