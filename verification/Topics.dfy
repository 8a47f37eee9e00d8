/**
  The translation of EdgeX (MQTT style) topics into NATS subjects, and what it does to
  subscription matching.
 */
module Topics {
  import opened GoStrings

  // ----- The replacers -----

  function ToSubjectChar(c: char): char {
    if c == '/' then '.' else if c == '+' then '*' else if c == '#' then '>' else c
  }

  function ToTopicChar(c: char): char {
    if c == '.' then '/' else if c == '*' then '+' else if c == '>' then '#' else c
  }

  function TopicToSubject(topic: string): string {
    seq(|topic|, i requires 0 <= i < |topic| => ToSubjectChar(topic[i]))
  }

  function SubjectToTopic(subject: string): string {
    seq(|subject|, i requires 0 <= i < |subject| => ToTopicChar(subject[i]))
  }

  /** No character that has a meaning in NATS subjects. */
  predicate FreeOfNats(s: string) {
    '.' !in s && '*' !in s && '>' !in s
  }

  /** No character that has a meaning in MQTT topics. */
  predicate FreeOfMqtt(s: string) {
    '/' !in s && '+' !in s && '#' !in s
  }

  /** Translating there and back is the identity on exactly the topics free of NATS syntax. */
  lemma TopicRoundTrip(topic: string)
    ensures SubjectToTopic(TopicToSubject(topic)) == topic <==> FreeOfNats(topic)
  {
    var back := SubjectToTopic(TopicToSubject(topic));
    if back == topic {
      forall c | c in topic
        ensures c != '.' && c != '*' && c != '>'
      {
        var i :| 0 <= i < |topic| && topic[i] == c;
        assert back[i] == c;
      }
    }
  }

  lemma SubjectRoundTrip(subject: string)
    ensures TopicToSubject(SubjectToTopic(subject)) == subject <==> FreeOfMqtt(subject)
  {
    var back := TopicToSubject(SubjectToTopic(subject));
    if back == subject {
      forall c | c in subject
        ensures c != '/' && c != '+' && c != '#'
      {
        var i :| 0 <= i < |subject| && subject[i] == c;
        assert back[i] == c;
      }
    }
  }

  lemma TranslationIsInjective(t1: string, t2: string)
    requires FreeOfNats(t1) && FreeOfNats(t2)
    ensures TopicToSubject(t1) == TopicToSubject(t2) <==> t1 == t2
  {
    TopicRoundTrip(t1);
    TopicRoundTrip(t2);
  }

  // ----- Response topics -----

  /** The topic a request with identifier `id` expects its response on. */
  function ResponseTopic(prefix: string, id: string): (topic: string)
    ensures topic == prefix + "/" + id
  {
    assert [prefix, id][1..] == [id] && Join([id], '/') == id;
    Join([prefix, id], '/')
  }

  /** With slash-free identifiers the response topic determines both of its parts. */
  lemma ResponseTopicsAreDistinct(p1: string, id1: string, p2: string, id2: string)
    requires '/' !in id1 && '/' !in id2
    ensures ResponseTopic(p1, id1) == ResponseTopic(p2, id2) <==> p1 == p2 && id1 == id2
  {
    if ResponseTopic(p1, id1) == ResponseTopic(p2, id2) {
      LastSlash(p1, id1);
      LastSlash(p2, id2);
      var topic := ResponseTopic(p1, id1);
      assert p1 == topic[..|p1|] && p2 == topic[..|p2|];
      assert id1 == topic[|p1| + 1..] && id2 == topic[|p2| + 1..];
    }
  }

  lemma LastSlash(prefix: string, id: string)
    requires '/' !in id
    ensures var topic := ResponseTopic(prefix, id);
            topic[|prefix|] == '/' && forall k :: |prefix| < k < |topic| ==> topic[k] != '/'
  {
    var topic := ResponseTopic(prefix, id);
    forall k | |prefix| < k < |topic|
      ensures topic[k] != '/'
    {
      assert topic[k] == id[k - |prefix| - 1];
    }
  }

  /** Hence concurrent NATS requests with distinct clean identifiers wait on distinct subjects. */
  lemma ResponseSubjectsAreDistinct(p1: string, id1: string, p2: string, id2: string)
    requires FreeOfNats(p1) && FreeOfNats(id1) && '/' !in id1
    requires FreeOfNats(p2) && FreeOfNats(id2) && '/' !in id2
    requires id1 != id2
    ensures TopicToSubject(ResponseTopic(p1, id1)) != TopicToSubject(ResponseTopic(p2, id2))
  {
    ResponseTopicsAreDistinct(p1, id1, p2, id2);
    FreeOfNatsConcat(p1, id1);
    FreeOfNatsConcat(p2, id2);
    TranslationIsInjective(ResponseTopic(p1, id1), ResponseTopic(p2, id2));
  }

  lemma FreeOfNatsConcat(prefix: string, id: string)
    requires FreeOfNats(prefix) && FreeOfNats(id)
    ensures FreeOfNats(ResponseTopic(prefix, id))
  {
    forall c | c in ResponseTopic(prefix, id)
      ensures c in prefix || c == '/' || c in id
    {
    }
  }

  // ----- MQTT topic filters, section 4.7 of OASIS MQTT 3.1.1 -----

  function Levels(topic: string): (levels: seq<string>)
    ensures |levels| >= 1
  {
    Split(topic, '/')
  }

  /** A wildcard stands alone in its level, and `#` only in the last one. */
  predicate IsFilterLevel(levels: seq<string>, i: nat)
    requires i < |levels|
  {
    || FreeOfMqtt(levels[i])
    || levels[i] == "+"
    || (levels[i] == "#" && i == |levels| - 1)
  }

  predicate IsTopicFilter(filter: string) {
    filter != "" && forall i :: 0 <= i < |Levels(filter)| ==> IsFilterLevel(Levels(filter), i)
  }

  predicate IsTopicName(topic: string) {
    topic != "" && '+' !in topic && '#' !in topic
  }

  predicate LevelMatches(pattern: string, level: string) {
    pattern == "+" || pattern == level
  }

  /** Sections 4.7.1.2 and 4.7.1.3: `#` stands for the parent level and any number of levels below. */
  predicate LevelsMatch(f: seq<string>, t: seq<string>)
    requires |f| >= 1
  {
    if f[|f| - 1] == "#" then
      |t| >= |f| - 1 && forall i :: 0 <= i < |f| - 1 ==> LevelMatches(f[i], t[i])
    else
      |t| == |f| && forall i :: 0 <= i < |f| ==> LevelMatches(f[i], t[i])
  }

  /** Section 4.7.2: a filter that starts with a wildcard does not match a topic that starts with `$`. */
  predicate HiddenFromWildcard(filter: string, topic: string) {
    topic != "" && topic[0] == '$' && filter != "" && (filter[0] == '+' || filter[0] == '#')
  }

  predicate MqttMatches(filter: string, topic: string) {
    !HiddenFromWildcard(filter, topic) && LevelsMatch(Levels(filter), Levels(topic))
  }

  /** The filter ends in `/#` and the topic is a parent level that the `#` hangs from. */
  predicate MatchesParentLevel(filter: string, topic: string) {
    var f, t := Levels(filter), Levels(topic);
    f[|f| - 1] == "#" && |t| == |f| - 1 && LevelsMatch(f, t)
  }

  predicate HasEmptyLevel(topic: string) {
    "" in Levels(topic)
  }

  /** A filter without wildcards matches its own topic and no other. */
  lemma LiteralFilterMatchesItself(filter: string, topic: string)
    requires '+' !in filter && '#' !in filter
    ensures MqttMatches(filter, topic) <==> filter == topic
  {
    SplitJoins(filter, '/');
    SplitJoins(topic, '/');
    var f, t := Levels(filter), Levels(topic);
    SplitPiecesCome(filter, '/');
    forall i | 0 <= i < |f|
      ensures f[i] != "+" && f[i] != "#"
    {
      assert '+' !in f[i] && '#' !in f[i] && '+' in "+" && '#' in "#";
    }
    if LevelsMatch(f, t) {
      assert forall i :: 0 <= i < |f| ==> LevelMatches(f[i], t[i]);
      assert f == t;
    }
    if filter == topic && filter != "" {
      assert filter[0] in filter;
    }
  }

  lemma {:induction false} SplitPiecesCome(s: string, sep: char)
    ensures forall i, c :: 0 <= i < |Split(s, sep)| && c in Split(s, sep)[i] ==> c in s
  {
    if s != "" {
      SplitPiecesCome(s[1..], sep);
      var rest, parts := Split(s[1..], sep), Split(s, sep);
      forall i, c | 0 <= i < |parts| && c in parts[i]
        ensures c in s
      {
        if s[0] == sep {
          assert i == 0 || parts[i] == rest[i - 1];
          assert parts[0] == "";
        } else {
          assert i == 0 || parts[i] == rest[i];
          assert parts[0] == [s[0]] + rest[0];
        }
        assert c == s[0] || c in s[1..];
      }
    }
  }

  /**
    * A filter that starts with a wildcard never matches a topic that starts with a dollar sign, and nothing else is
    * special.
    */
  lemma DollarTopics(filter: string, topic: string)
    requires filter != "" && topic != ""
    ensures topic[0] == '$' && filter[0] in ['+', '#'] ==> !MqttMatches(filter, topic)
    ensures topic[0] != '$' || filter[0] !in ['+', '#'] ==>
              (MqttMatches(filter, topic) <==> LevelsMatch(Levels(filter), Levels(topic)))
  {
  }

  /** A filter is made of any levels without wildcards, of `+` levels, and at most a last level `#`. */
  lemma FiltersAre(levels: seq<string>, last: string)
    requires forall i :: 0 <= i < |levels| ==> levels[i] == "+" || FreeOfMqtt(levels[i])
    requires last == "#" || last == "+" || FreeOfMqtt(last)
    requires Join(levels + [last], '/') != ""
    ensures Levels(Join(levels + [last], '/')) == levels + [last]
    ensures IsTopicFilter(Join(levels + [last], '/'))
  {
    var all := levels + [last];
    forall i | 0 <= i < |all|
      ensures '/' !in all[i] && IsFilterLevel(all, i)
    {
      assert all[i] == if i < |levels| then levels[i] else last;
    }
    JoinSplits(all, '/');
  }

  // ----- NATS subject matching -----

  function Tokens(subject: string): (tokens: seq<string>)
    ensures |tokens| >= 1
  {
    Split(subject, '.')
  }

  /** `*` takes one token, a final `>` takes all the tokens that are left, and at least one. */
  predicate TokensMatch(p: seq<string>, s: seq<string>) {
    if p == [] then s == []
    else if p == [">"] then s != []
    else s != [] && (p[0] == "*" || p[0] == s[0]) && TokensMatch(p[1..], s[1..])
  }

  /** A subject with an empty token is not valid, so nothing is delivered through it. */
  predicate NatsMatches(pattern: string, subject: string) {
    && "" !in Tokens(pattern)
    && "" !in Tokens(subject)
    && TokensMatch(Tokens(pattern), Tokens(subject))
  }

  // ----- Translation and matching -----

  function EachToSubject(levels: seq<string>): (r: seq<string>) {
    seq(|levels|, i requires 0 <= i < |levels| => TopicToSubject(levels[i]))
  }

  /** Splitting commutes with translating: tokens are translated levels. */
  lemma {:induction false} TokensOfTranslation(topic: string)
    requires '.' !in topic
    ensures Tokens(TopicToSubject(topic)) == EachToSubject(Levels(topic))
  {
    var subject := TopicToSubject(topic);
    if topic == "" {
      assert EachToSubject([""]) == [""];
    } else {
      TokensOfTranslation(topic[1..]);
      assert subject[1..] == TopicToSubject(topic[1..]);
      var rest := Levels(topic[1..]);
      if topic[0] == '/' {
        assert Levels(topic)[1..] == rest;
        assert EachToSubject(Levels(topic)) == [""] + EachToSubject(rest);
      } else {
        assert topic[0] != '.' && subject[0] != '.';
        assert TopicToSubject([topic[0]] + rest[0]) == [subject[0]] + TopicToSubject(rest[0]);
        assert EachToSubject(Levels(topic)) == [[subject[0]] + TopicToSubject(rest[0])] + EachToSubject(rest)[1..];
      }
    }
  }

  /** Levels as they come out of splitting a well-formed filter or topic. */
  predicate AreCleanLevels(f: seq<string>, last: bool) {
    forall i :: 0 <= i < |f| ==>
      && FreeOfNats(f[i])
      && (FreeOfMqtt(f[i]) || f[i] == "+" || (f[i] == "#" && last && i == |f| - 1))
  }

  predicate AreLiteralLevels(t: seq<string>) {
    forall i :: 0 <= i < |t| ==> FreeOfNats(t[i]) && FreeOfMqtt(t[i])
  }

  lemma TranslatedLevel(pattern: string, level: string)
    requires FreeOfNats(pattern) && (FreeOfMqtt(pattern) || pattern == "+" || pattern == "#")
    requires FreeOfNats(level) && FreeOfMqtt(level)
    ensures TopicToSubject(pattern) == ">" <==> pattern == "#"
    ensures (TopicToSubject(pattern) == "*" || TopicToSubject(pattern) == TopicToSubject(level)) <==>
        LevelMatches(pattern, level)
    ensures TopicToSubject(level) == level
  {
    assert TopicToSubject(level) == level;
    if FreeOfMqtt(pattern) {
      assert TopicToSubject(pattern) == pattern;
    } else if pattern == "+" {
      assert TopicToSubject(pattern) == "*";
    } else {
      assert TopicToSubject(pattern) == ">";
      assert level != ">" by { assert '>' !in level; }
    }
  }

  /** Token matching of translated levels is level matching, less the parent level of a final `#`. */
  lemma {:induction false} TokensMatchTranslation(f: seq<string>, t: seq<string>)
    requires |f| >= 1 && AreCleanLevels(f, true) && AreLiteralLevels(t)
    ensures TokensMatch(EachToSubject(f), EachToSubject(t))
       <==> LevelsMatch(f, t) && !(f[|f| - 1] == "#" && |t| == |f| - 1)
    decreases |f|
  {
    var p, s := EachToSubject(f), EachToSubject(t);
    TranslatedLevel(f[0], if t == [] then "" else t[0]);
    if |f| == 1 && f[0] == "#" {
      assert p == [">"];
    } else if t != [] {
      assert |p| != 1 || p[0] != ">";
      assert p[1..] == EachToSubject(f[1..]) && s[1..] == EachToSubject(t[1..]);
      if |f| == 1 {
        assert p[1..] == [];
        assert TokensMatch(p[1..], s[1..]) <==> t[1..] == [];
      } else {
        TokensMatchTranslation(f[1..], t[1..]);
        assert f[1..][|f| - 2] == f[|f| - 1];
        LevelsMatchUnfolds(f, t);
      }
    } else {
      assert |p| != 1 || p[0] != ">";
    }
  }

  lemma LevelsMatchUnfolds(f: seq<string>, t: seq<string>)
    requires |f| >= 2 && t != [] && f[0] != "#"
    ensures LevelsMatch(f, t) <==> LevelMatches(f[0], t[0]) && LevelsMatch(f[1..], t[1..])
  {
    var n := if f[|f| - 1] == "#" then |f| - 1 else |f|;
    assert f[1..][|f| - 2] == f[|f| - 1];
    if LevelMatches(f[0], t[0]) && LevelsMatch(f[1..], t[1..]) {
      forall i | 0 <= i < n
        ensures LevelMatches(f[i], t[i])
      {
        if i > 0 {
          assert f[i] == f[1..][i - 1] && t[i] == t[1..][i - 1];
        }
      }
    }
    if LevelsMatch(f, t) {
      assert LevelMatches(f[0], t[0]);
    }
  }

  lemma CleanFilterLevels(filter: string)
    requires IsTopicFilter(filter) && FreeOfNats(filter)
    ensures AreCleanLevels(Levels(filter), true)
  {
    SplitPiecesCome(filter, '/');
    var f := Levels(filter);
    forall i | 0 <= i < |f|
      ensures FreeOfNats(f[i]) && (FreeOfMqtt(f[i]) || f[i] == "+" || (f[i] == "#" && i == |f| - 1))
    {
      assert IsFilterLevel(f, i);
    }
  }

  lemma LiteralTopicLevels(topic: string)
    requires IsTopicName(topic) && FreeOfNats(topic)
    ensures AreLiteralLevels(Levels(topic))
  {
    SplitPiecesCome(topic, '/');
    SplitJoins(topic, '/');
  }

  lemma EmptyLevelsStayEmpty(topic: string)
    requires '.' !in topic
    ensures "" in Tokens(TopicToSubject(topic)) <==> HasEmptyLevel(topic)
  {
    TokensOfTranslation(topic);
    var levels := Levels(topic);
    forall i | 0 <= i < |levels|
      ensures EachToSubject(levels)[i] == "" <==> levels[i] == ""
    {
    }
    if HasEmptyLevel(topic) {
      var i :| 0 <= i < |levels| && levels[i] == "";
      assert EachToSubject(levels)[i] == "";
    }
  }

  /**
    What a translated subscription delivers, for every well-formed filter and topic without NATS
    syntax: the MQTT levels match, except at the parent level of a final `#`; NATS refuses empty
    levels and knows nothing about `$`.
   */
  lemma TranslationMatching(filter: string, topic: string)
    requires IsTopicFilter(filter) && IsTopicName(topic) && FreeOfNats(filter) && FreeOfNats(topic)
    ensures NatsMatches(TopicToSubject(filter), TopicToSubject(topic))
       <==> && LevelsMatch(Levels(filter), Levels(topic))
            && !MatchesParentLevel(filter, topic)
            && !HasEmptyLevel(filter) && !HasEmptyLevel(topic)
  {
    CleanFilterLevels(filter);
    LiteralTopicLevels(topic);
    TokensOfTranslation(filter);
    TokensOfTranslation(topic);
    EmptyLevelsStayEmpty(filter);
    EmptyLevelsStayEmpty(topic);
    TokensMatchTranslation(Levels(filter), Levels(topic));
  }

  /** Matching is preserved, with the parent level of a multi-level wildcard as the one exception. */
  lemma TranslationPreservesMatching(filter: string, topic: string)
    requires IsTopicFilter(filter) && IsTopicName(topic) && FreeOfNats(filter) && FreeOfNats(topic)
    requires !HasEmptyLevel(filter) && !HasEmptyLevel(topic) && topic[0] != '$'
    ensures NatsMatches(TopicToSubject(filter), TopicToSubject(topic))
       <==> MqttMatches(filter, topic) && !MatchesParentLevel(filter, topic)
  {
    TranslationMatching(filter, topic);
  }

  /** Exactly when the two brokers agree about a filter and a topic. */
  lemma TranslationAgreesExactlyWhen(filter: string, topic: string)
    requires IsTopicFilter(filter) && IsTopicName(topic) && FreeOfNats(filter) && FreeOfNats(topic)
    ensures NatsMatches(TopicToSubject(filter), TopicToSubject(topic)) == MqttMatches(filter, topic)
       <==> !(LevelsMatch(Levels(filter), Levels(topic)) &&
              (MatchesParentLevel(filter, topic) || HasEmptyLevel(filter) || HasEmptyLevel(topic))
              != HiddenFromWildcard(filter, topic))
  {
    TranslationMatching(filter, topic);
  }

  /** `a/#` receives `a` from an MQTT broker, and `a.>` does not receive `a` from a NATS server. */
  lemma ParentLevelIsLost()
    ensures MqttMatches("a/#", "a") && MatchesParentLevel("a/#", "a")
    ensures !NatsMatches(TopicToSubject("a/#"), TopicToSubject("a"))
  {
    var f, t := "a/#", "a";
    SplitConcat("a", '/', "#");
    assert "a" + "/" + "#" == f;
    SplitWithoutSeparator("a", '/');
    SplitWithoutSeparator("#", '/');
    assert Levels(f) == ["a", "#"] && Levels(t) == ["a"];
    assert LevelMatches(Levels(f)[0], Levels(t)[0]);
    TranslationMatching(f, t);
  }
}
