/** Topics of the public MQTT broker, and the filters clients may subscribe to. */
module Topics {
  import opened Wrappers
  import opened Text

  const PUBLIC_PREFIX := "public"
  const PRIVATE_PREFIX := "users"
  const PROCESSES := "processes"

  predicate IsValidTopicUserId(userId: string) {
    userId != "" && '/' !in userId && '+' !in userId && '#' !in userId && '\0' !in userId
  }

  function PublicTopicPrefix(): string { PUBLIC_PREFIX + "/" }

  function PrivateTopicPrefix(userId: string): string { PRIVATE_PREFIX + "/" + userId + "/" }

  function PublicProcessTopic(process: string, eventType: string): string {
    PUBLIC_PREFIX + "/" + PROCESSES + "/" + process + "/" + eventType
  }

  function PrivateProcessTopic(userId: string, process: string, eventType: string): string {
    PRIVATE_PREFIX + "/" + userId + "/" + PROCESSES + "/" + process + "/" + eventType
  }

  /** The broker plugin's check of a topic or topic filter, by prefix. */
  predicate IsTopicAllowedForSubject(topic: string, subject: Option<string>) {
    || PublicTopicPrefix() <= topic
    || (subject.Some? && IsValidTopicUserId(subject.value) && PrivateTopicPrefix(subject.value) <= topic)
  }

  // ---------------------------------------------------------------- matching

  function Levels(topic: string): (levels: seq<string>)
    ensures |levels| > 0
    ensures forall i :: 0 <= i < |levels| ==> '/' !in levels[i]
  {
    Split(topic, '/')
  }

  /**
   Matching level by level, section 4.7.1 of MQTT 3.1.1: `#` as the last level matches any
   remaining levels including none, so also the parent level; `+` matches exactly one level.
   */
  predicate LevelsMatch(filter: seq<string>, topic: seq<string>) {
    if filter == ["#"] then true
    else if filter == [] || topic == [] then filter == topic
    else (filter[0] == "+" || filter[0] == topic[0]) && LevelsMatch(filter[1..], topic[1..])
  }

  /** Section 4.7.2: a filter starting with a wildcard does not match a topic starting with `$`. */
  predicate FilterMatches(filter: string, topic: string) {
    && !("$" <= topic && ("+" <= filter || "#" <= filter))
    && LevelsMatch(Levels(filter), Levels(topic))
  }

  /** One level of a filter against one of a topic. */
  predicate LevelMatches(filter: string, topic: string) { filter == "+" || filter == topic }

  /**
   What a filter matches, without recursion: topics of as many levels, each matched by its own; and,
   if the filter ends in `#`, topics with at least the levels before it, those matched.
   */
  lemma {:induction false} LevelsMatchExactly(filter: seq<string>, topic: seq<string>)
    ensures LevelsMatch(filter, topic) <==>
      || (&& |filter| == |topic|
          && forall i :: 0 <= i < |filter| ==> LevelMatches(filter[i], topic[i]))
      || (&& filter != [] && filter[|filter| - 1] == "#" && |topic| >= |filter| - 1
          && forall i :: 0 <= i < |filter| - 1 ==> LevelMatches(filter[i], topic[i]))
  {
    if filter != [] && topic != [] && filter != ["#"] {
      LevelsMatchExactly(filter[1..], topic[1..]);
      assert forall i :: 0 < i < |filter| ==> filter[i] == filter[1..][i - 1];
      assert forall i :: 0 < i < |topic| ==> topic[i] == topic[1..][i - 1];
      assert forall i :: 0 <= i < |filter| - 1 ==> filter[1..][i] == filter[i + 1];
      assert forall i :: 0 <= i < |topic| - 1 ==> topic[1..][i] == topic[i + 1];
    }
  }

  /** What a filter matches, by levels; and a wildcard at its start matches no topic that starts with a dollar sign. */
  lemma MatchesExactly(filter: string, topic: string)
    ensures var f, t := Split(filter, '/'), Split(topic, '/');
      FilterMatches(filter, topic) <==>
        && !(topic != "" && topic[0] == '$' && filter != "" && filter[0] in {'+', '#'})
        && (|| (|f| == |t| && forall i :: 0 <= i < |f| ==> f[i] == "+" || f[i] == t[i])
            || (&& f[|f| - 1] == "#" && |t| >= |f| - 1
                && forall i :: 0 <= i < |f| - 1 ==> f[i] == "+" || f[i] == t[i]))
  {
    LevelsMatchExactly(Levels(filter), Levels(topic));
  }

  /** A user id is usable exactly when it is one level, not empty, without wildcards and null characters. */
  lemma ValidIdIsOneLevel(userId: string)
    ensures IsValidTopicUserId(userId) <==>
      Levels(userId) == [userId] && userId != "" && '+' !in userId && '#' !in userId && '\0' !in userId
  {
    assert '/' !in Levels(userId)[0];
    if '/' !in userId {
      SplitSeparatorFree(userId, '/');
    }
  }

  // ---------------------------------------------------------------- levels of the topics

  lemma PrefixLevels(first: string, topic: string)
    requires '/' !in first && first + "/" <= topic
    ensures Levels(topic) == [first] + Levels(topic[|first| + 1..])
  {
    var rest := topic[|first| + 1..];
    assert topic == first + ['/'] + rest;
    SplitConcat(first, rest, '/');
    SplitSeparatorFree(first, '/');
  }

  /** The reverse: a topic with a first level and more starts with that level and a separator. */
  lemma FirstLevelIsPrefix(topic: string)
    requires |Levels(topic)| >= 2
    ensures Levels(topic)[0] + "/" <= topic
    ensures Levels(topic[|Levels(topic)[0]| + 1..]) == Levels(topic)[1..]
  {
    var first := Levels(topic)[0];
    JoinSplit(topic, '/');
    assert topic == first + ['/'] + Join(Levels(topic)[1..], '/');
    PrefixLevels(first, topic);
  }

  /**
   The check by prefix is a check of whole levels: `public`, or `users` and the subject itself, with
   something below.
   */
  lemma AllowedLevels(topic: string, subject: Option<string>)
    ensures IsTopicAllowedForSubject(topic, subject) <==>
            || (|Levels(topic)| >= 2 && Levels(topic)[0] == "public")
            || (&& |Levels(topic)| >= 3 && subject.Some? && IsValidTopicUserId(subject.value)
                && Levels(topic)[..2] == ["users", subject.value])
  {
    if PublicTopicPrefix() <= topic {
      PrefixLevels(PUBLIC_PREFIX, topic);
    } else if IsTopicAllowedForSubject(topic, subject) {
      var user := subject.value;
      assert PRIVATE_PREFIX + "/" <= topic;
      PrefixLevels(PRIVATE_PREFIX, topic);
      var rest := topic[|PRIVATE_PREFIX| + 1..];
      assert user + "/" == PrivateTopicPrefix(user)[|PRIVATE_PREFIX| + 1..] <= rest;
      PrefixLevels(user, rest);
    } else if |Levels(topic)| >= 2 {
      FirstLevelIsPrefix(topic);
      if |Levels(topic)| >= 3 && subject.Some? && Levels(topic)[..2] == [PRIVATE_PREFIX, subject.value] {
        assert Levels(topic)[..2][0] == PRIVATE_PREFIX && Levels(topic)[1] == Levels(topic)[..2][1] == subject.value;
        var rest := topic[|PRIVATE_PREFIX| + 1..];
        FirstLevelIsPrefix(rest);
        assert topic == PRIVATE_PREFIX + "/" + rest;
        assert PrivateTopicPrefix(subject.value) <= topic;
      }
    }
  }

  lemma PrivateProcessTopicLevels(userId: string, process: string, eventType: string)
    requires '/' !in userId && '/' !in eventType
    ensures Levels(PrivateProcessTopic(userId, process, eventType)) ==
            ["users", userId, "processes"] + Levels(process) + [eventType]
  {
    var part := PROCESSES + "/" + (process + "/" + eventType);
    PrivateTopicIs(userId, process, eventType);
    PrefixLevels(PRIVATE_PREFIX, PRIVATE_PREFIX + "/" + (userId + "/" + part));
    PrefixLevels(userId, userId + "/" + part);
    ProcessPartLevels(process, eventType);
  }

  lemma PrivateTopicIs(userId: string, process: string, eventType: string)
    ensures PrivateProcessTopic(userId, process, eventType) ==
            PRIVATE_PREFIX + "/" + (userId + "/" + (PROCESSES + "/" + (process + "/" + eventType)))
  {
  }

  lemma PublicProcessTopicLevels(process: string, eventType: string)
    requires '/' !in eventType
    ensures Levels(PublicProcessTopic(process, eventType)) ==
            ["public", "processes"] + Levels(process) + [eventType]
  {
    var topic := PublicProcessTopic(process, eventType);
    assert topic == PUBLIC_PREFIX + "/" + (PROCESSES + "/" + (process + "/" + eventType));
    PrefixLevels(PUBLIC_PREFIX, topic);
    ProcessPartLevels(process, eventType);
  }

  lemma ProcessPartLevels(process: string, eventType: string)
    requires '/' !in eventType
    ensures Levels(PROCESSES + "/" + (process + "/" + eventType)) == [PROCESSES] + Levels(process) + [eventType]
  {
    var part := PROCESSES + "/" + (process + "/" + eventType);
    PrefixLevels(PROCESSES, part);
    assert part[|PROCESSES| + 1..] == process + ['/'] + eventType;
    SplitConcat(process, eventType, '/');
    SplitSeparatorFree(eventType, '/');
  }

  // ---------------------------------------------------------------- confinement

  /**
   A literal first level is matched only by itself; the rest of the filter matches the rest of the topic,
   or is `#` for a missing rest.
   */
  lemma LiteralLevel(filter: seq<string>, topic: seq<string>)
    requires |filter| >= 2 && filter[0] != "#" && filter[0] != "+" && |topic| > 0 && LevelsMatch(filter, topic)
    ensures topic[0] == filter[0] && LevelsMatch(filter[1..], topic[1..])
  {
  }

  /**
   Whatever topic is matched by a filter that a subject may subscribe to lies in the public
   namespace or in the subject's own.
   */
  lemma FilterConfinement(filter: string, subject: Option<string>, topic: string)
    requires IsTopicAllowedForSubject(filter, subject) && FilterMatches(filter, topic)
    ensures || Levels(topic)[0] == "public"
            || (subject.Some? && IsValidTopicUserId(subject.value)
                && |Levels(topic)| >= 2 && Levels(topic)[..2] == ["users", subject.value])
  {
    AllowedLevels(filter, subject);
    var fs, ts := Levels(filter), Levels(topic);
    LiteralLevel(fs, ts);
    if fs[0] != PUBLIC_PREFIX {
      assert fs[1] == fs[..2][1] == subject.value;
      assert fs[1..] != ["#"] && ts[1..] != [];
      LiteralLevel(fs[1..], ts[1..]);
    }
  }

  /** No accepted filter reaches another user's private process topics. */
  lemma OtherUsersTopicsAreOutOfReach(filter: string, subject: Option<string>, userId: string, process: string,
                                      eventType: string)
    requires IsTopicAllowedForSubject(filter, subject) && IsValidTopicUserId(userId) && '/' !in eventType
    requires FilterMatches(filter, PrivateProcessTopic(userId, process, eventType))
    ensures subject == Some(userId)
  {
    PrivateProcessTopicLevels(userId, process, eventType);
    FilterConfinement(filter, subject, PrivateProcessTopic(userId, process, eventType));
    var levels := Levels(PrivateProcessTopic(userId, process, eventType));
    assert levels[0] == PRIVATE_PREFIX && levels[1] == userId;
    assert subject.Some? ==> levels[..2] == [PRIVATE_PREFIX, userId];
  }

  /** Conversely, `users/{id}/#` is an accepted filter that matches all the topics of that user. */
  lemma OwnNamespaceIsCovered(userId: string, process: string, eventType: string)
    requires IsValidTopicUserId(userId) && '/' !in eventType
    ensures IsTopicAllowedForSubject(PrivateTopicPrefix(userId) + "#", Some(userId))
    ensures IsTopicAllowedForSubject(PrivateProcessTopic(userId, process, eventType), Some(userId))
    ensures FilterMatches(PrivateTopicPrefix(userId) + "#", PrivateProcessTopic(userId, process, eventType))
  {
    var filter, topic := PrivateTopicPrefix(userId) + "#", PrivateProcessTopic(userId, process, eventType);
    assert topic[..|PrivateTopicPrefix(userId)|] == PrivateTopicPrefix(userId);
    PrivateProcessTopicLevels(userId, process, eventType);
    PrefixLevels(PRIVATE_PREFIX, filter);
    assert filter[|PRIVATE_PREFIX| + 1..] == userId + "/" + "#";
    PrefixLevels(userId, userId + "/" + "#");
    SplitSeparatorFree("#", '/');
    assert Levels(filter) == [PRIVATE_PREFIX, userId, "#"];
    assert Levels(filter)[1..] == [userId, "#"] && Levels(filter)[1..][1..] == ["#"];
    assert Levels(topic)[1..][0] == userId;
  }

  // ---------------------------------------------------------------- unambiguous construction

  /** Distinct triples give distinct private topics, even when process identifiers contain `/`. */
  lemma PrivateTopicsAreDistinct(u: string, p: string, e: string, u': string, p': string, e': string)
    requires '/' !in u && '/' !in u' && '/' !in e && '/' !in e'
    requires PrivateProcessTopic(u, p, e) == PrivateProcessTopic(u', p', e')
    ensures u == u' && p == p' && e == e'
  {
    PrivateProcessTopicLevels(u, p, e);
    PrivateProcessTopicLevels(u', p', e');
    var levels := Levels(PrivateProcessTopic(u, p, e));
    assert levels[1] == u && levels[1] == u';
    assert levels[|levels| - 1] == e && levels[|levels| - 1] == e';
    assert levels[3..|levels| - 1] == Levels(p) && levels[3..|levels| - 1] == Levels(p');
    SplitInjective(p, p', '/');
  }

  lemma PublicTopicsAreDistinct(p: string, e: string, p': string, e': string)
    requires '/' !in e && '/' !in e'
    requires PublicProcessTopic(p, e) == PublicProcessTopic(p', e')
    ensures p == p' && e == e'
  {
    PublicProcessTopicLevels(p, e);
    PublicProcessTopicLevels(p', e');
    var levels := Levels(PublicProcessTopic(p, e));
    assert levels[|levels| - 1] == e && levels[|levels| - 1] == e';
    assert levels[2..|levels| - 1] == Levels(p) && levels[2..|levels| - 1] == Levels(p');
    SplitInjective(p, p', '/');
  }

  lemma FamiliesAreDisjoint(u: string, p: string, e: string, p': string, e': string)
    requires '/' !in u && '/' !in e && '/' !in e'
    ensures PrivateProcessTopic(u, p, e) != PublicProcessTopic(p', e')
  {
    PrivateProcessTopicLevels(u, p, e);
    PublicProcessTopicLevels(p', e');
  }
}
