/**
 Topic strings and the one operation the bridge performs on them: taking the
 last `/`-separated level (`topic.split('/')[-1]`).

 `Split` follows Python's `str.split(sep)` with an explicit separator: it never
 returns an empty list, consecutive, leading or trailing separators give empty
 parts, and splitting the empty string gives `[""]`.
 */
module Topics {

  /** The topic level separator of MQTT (section 4.7.1.1 of MQTT Version 5.0). */
  const Separator: char := '/'

  /** Python's `s.split(sep)`, built one character at a time from the right. */
  function Split(s: string, sep: char): (parts: seq<string>)
    ensures |parts| >= 1
    ensures forall i :: 0 <= i < |parts| ==> sep !in parts[i]
    decreases |s|
  {
    if |s| == 0 then [""]
    else
      var init := Split(s[..|s| - 1], sep);
      var c := s[|s| - 1];
      if c == sep then init + [""]
      else init[..|init| - 1] + [init[|init| - 1] + [c]]
  }

  /** Python's `sep.join(parts)`. */
  function Join(parts: seq<string>, sep: char): string
    decreases |parts|
  {
    if |parts| == 0 then ""
    else if |parts| == 1 then parts[0]
    else Join(parts[..|parts| - 1], sep) + [sep] + parts[|parts| - 1]
  }

  /** Joining one more part adds a separator and that part. */
  lemma JoinSnoc(init: seq<string>, last: string, sep: char)
    requires |init| >= 1
    ensures Join(init + [last], sep) == Join(init, sep) + [sep] + last
  {
    assert (init + [last])[..|init|] == init;
  }

  /** Extending the last part by one character extends the join by that character. */
  lemma JoinExtendLast(front: seq<string>, last: string, c: char, sep: char)
    ensures Join(front + [last + [c]], sep) == Join(front + [last], sep) + [c]
  {
    if |front| > 0 {
      JoinSnoc(front, last, sep);
      JoinSnoc(front, last + [c], sep);
    }
  }

  /** A split that joins back still does once a separator is appended. */
  lemma JoinSplitSeparator(s: string, sep: char)
    requires |s| > 0 && s[|s| - 1] == sep
    requires Join(Split(s[..|s| - 1], sep), sep) == s[..|s| - 1]
    ensures Join(Split(s, sep), sep) == s
  {
    var init := Split(s[..|s| - 1], sep);
    assert Split(s, sep) == init + [""];
    JoinSnoc(init, "", sep);
    assert s[..|s| - 1] + [sep] + "" == s;
  }

  /** Extending the last of some parts by one character extends their join by that character. */
  lemma JoinReplaceLast(parts: seq<string>, c: char, sep: char)
    requires |parts| > 0
    ensures Join(parts[..|parts| - 1] + [parts[|parts| - 1] + [c]], sep) == Join(parts, sep) + [c]
  {
    var k := |parts| - 1;
    assert parts == parts[..k] + [parts[k]];
    JoinExtendLast(parts[..k], parts[k], c, sep);
  }

  /** A split that joins back still does once a character other than the separator is appended. */
  lemma JoinSplitOther(s: string, sep: char)
    requires |s| > 0 && s[|s| - 1] != sep
    requires Join(Split(s[..|s| - 1], sep), sep) == s[..|s| - 1]
    ensures Join(Split(s, sep), sep) == s
  {
    var init := Split(s[..|s| - 1], sep);
    JoinReplaceLast(init, s[|s| - 1], sep);
    assert s[..|s| - 1] + [s[|s| - 1]] == s;
  }

  /** Joining the parts of a split gives back the original string. */
  lemma {:induction false} JoinSplit(s: string, sep: char)
    ensures Join(Split(s, sep), sep) == s
    decreases |s|
  {
    if |s| > 0 {
      JoinSplit(s[..|s| - 1], sep);
      if s[|s| - 1] == sep {
        JoinSplitSeparator(s, sep);
      } else {
        JoinSplitOther(s, sep);
      }
    }
  }

  /** A string without separators splits into itself alone. */
  lemma {:induction false} SplitLevel(w: string, sep: char)
    requires sep !in w
    ensures Split(w, sep) == [w]
    decreases |w|
  {
    if |w| > 0 {
      SplitLevel(w[..|w| - 1], sep);
      assert w[..|w| - 1] + [w[|w| - 1]] == w;
    }
  }

  /** Appending a separator and a separator-free word appends exactly one part. */
  lemma {:induction false} SplitAppendLevel(a: string, w: string, sep: char)
    requires sep !in w
    ensures Split(a + [sep] + w, sep) == Split(a, sep) + [w]
    decreases |w|
  {
    var s := a + [sep] + w;
    if |w| == 0 {
      assert s[..|s| - 1] == a;
    } else {
      var w' := w[..|w| - 1];
      SplitAppendLevel(a, w', sep);
      assert s[..|s| - 1] == a + [sep] + w';
      assert w' + [w[|w| - 1]] == w;
    }
  }

  /** Splitting a join of separator-free parts gives back the parts. */
  lemma {:induction false} SplitJoin(parts: seq<string>, sep: char)
    requires |parts| >= 1
    requires forall i :: 0 <= i < |parts| ==> sep !in parts[i]
    ensures Split(Join(parts, sep), sep) == parts
    decreases |parts|
  {
    if |parts| == 1 {
      SplitLevel(parts[0], sep);
    } else {
      var init := parts[..|parts| - 1];
      SplitJoin(init, sep);
      SplitAppendLevel(Join(init, sep), parts[|parts| - 1], sep);
      assert init + [parts[|parts| - 1]] == parts;
    }
  }

  /**
   `level` is the last level of `topic`: a separator-free suffix of `topic`
   that is either all of `topic` or directly preceded by a separator.
   */
  predicate IsLastLevel(topic: string, level: string) {
    && |level| <= |topic|
    && topic[|topic| - |level|..] == level
    && Separator !in level
    && (|level| == |topic| || topic[|topic| - |level| - 1] == Separator)
  }

  /** The last part of a split is a suffix that starts at the string's start or after a separator. */
  lemma {:induction false} LastPartIsSuffix(s: string, sep: char)
    ensures var parts := Split(s, sep); var last := parts[|parts| - 1];
      && |last| <= |s|
      && s[|s| - |last|..] == last
      && (|last| == |s| || s[|s| - |last| - 1] == sep)
    decreases |s|
  {
    if |s| > 0 {
      var s' := s[..|s| - 1];
      var c := s[|s| - 1];
      LastPartIsSuffix(s', sep);
      var init := Split(s', sep);
      var last' := init[|init| - 1];
      if c != sep {
        var last := last' + [c];
        assert Split(s, sep)[|Split(s, sep)| - 1] == last;
        assert s[|s| - |last|..] == s'[|s'| - |last'|..] + [c];
        if |last| < |s| {
          assert s[|s| - |last| - 1] == s'[|s'| - |last'| - 1];
        }
      }
    }
  }

  /** The sensor category of a topic: `topic.split('/')[-1]`. */
  function LastSegment(topic: string): (level: string)
    ensures IsLastLevel(topic, level)
  {
    var parts := Split(topic, Separator);
    LastPartIsSuffix(topic, Separator);
    parts[|parts| - 1]
  }

  /** At most one string is the last level of a topic. */
  lemma LastLevelUnique(topic: string, a: string, b: string)
    requires IsLastLevel(topic, a) && IsLastLevel(topic, b)
    ensures a == b
  {
  }

  /** The category of `prefix/level` is `level`, whatever the prefix holds. */
  lemma LastSegmentOfLevel(prefix: string, level: string)
    requires Separator !in level
    ensures LastSegment(prefix + [Separator] + level) == level
  {
    var topic := prefix + [Separator] + level;
    assert topic[|topic| - |level|..] == level;
    assert topic[|topic| - |level| - 1] == Separator;
    LastLevelUnique(topic, LastSegment(topic), level);
  }

  /** A topic is its own category exactly when it has no separator. */
  lemma LastSegmentWholeTopic(topic: string)
    ensures LastSegment(topic) == topic <==> Separator !in topic
  {
    if Separator !in topic {
      LastLevelUnique(topic, LastSegment(topic), topic);
    }
  }
}
