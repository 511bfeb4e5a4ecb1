/** Topic paths: the grammar, the suggestions offered for a rejected one, and the hardening of model output.
    Models `TOPIC_PATTERN`, `validate_topic` and `harden_llm_topic_path` in gubbi/validation.py and
    `_topic_suggestions` in gubbi/tools/errors.py. */
module Topics {
  import opened Prelude

  predicate Alnum(c: char) { 'a' <= c <= 'z' || '0' <= c <= '9' }
  predicate TopicChar(c: char) { Alnum(c) || c == '-' || c == '/' }
  predicate AllTopicChars(s: string) { forall i :: 0 <= i < |s| ==> TopicChar(s[i]) }

  /** What is used of `str.lower`: it leaves topic characters alone, a result made of topic characters is no longer
      than the input, and a newline in the result was there before. */
  ghost predicate Lowers(lower: string -> string) {
    && (forall s :: AllTopicChars(s) ==> lower(s) == s)
    && (forall s :: AllTopicChars(lower(s)) ==> |lower(s)| <= |s|)
    && (forall s :: '\n' in lower(s) ==> '\n' in s)
  }

  // ------------------------------------------------------------------
  // The grammar
  // ------------------------------------------------------------------

  /** `[a-z0-9]+(?:-[a-z0-9]+)*`, matched from the left. */
  predicate MatchSegment(s: string) {
    var n := Span(s, Alnum);
    n > 0 && (n == |s| || (s[n] == '-' && MatchSegment(s[n + 1..])))
  }

  /** One or two segments, separated by a slash. */
  predicate MatchTopic(s: string) {
    var n := Span(s, c => c != '/');
    if n == |s| then MatchSegment(s) else MatchSegment(s[..n]) && MatchSegment(s[n + 1..])
  }

  /** `TOPIC_PATTERN.match`: `$` also matches before a newline at the very end. */
  predicate Accepts(s: string) {
    MatchTopic(s) || (s != "" && s[|s| - 1] == '\n' && MatchTopic(s[..|s| - 1]))
  }

  function ValidateTopic(lower: string -> string, value: string): Option<string> {
    if Accepts(lower(value)) then Some(lower(value)) else None
  }

  /** A segment in words: alphanumerics and hyphens, no hyphen at either end, no two in a row. */
  predicate IsSegment(s: string) {
    && s != "" && Alnum(s[0]) && Alnum(s[|s| - 1])
    && (forall i :: 0 <= i < |s| ==> Alnum(s[i]) || s[i] == '-')
    && NoDoubleHyphen(s)
  }

  predicate HyphensAt(s: string, i: nat)
    requires i + 1 < |s|
  {
    s[i] == '-' && s[i + 1] == '-'
  }

  predicate NoDoubleHyphen(s: string) { forall i :: 0 <= i < |s| - 1 ==> !HyphensAt(s, i) }

  lemma {:induction false} SegmentsAreMatched(s: string)
    ensures MatchSegment(s) <==> IsSegment(s)
  {
    var n := Span(s, Alnum);
    if n == 0 || n == |s| {
      assert s != "" && n == 0 ==> !Alnum(s[0]);
    } else {
      var rest := s[n + 1..];
      SegmentsAreMatched(rest);
      assert forall i :: 0 <= i < |rest| ==> rest[i] == s[i + n + 1];
      if s[n] == '-' && IsSegment(rest) {
        assert s[|s| - 1] == rest[|rest| - 1];
        forall i | 0 <= i < |s| - 1 ensures !HyphensAt(s, i) {
          if i > n {
            assert !HyphensAt(rest, i - n - 1);
          }
        }
        forall i | 0 <= i < |s| ensures Alnum(s[i]) || s[i] == '-' {
          if i > n {
            assert s[i] == rest[i - n - 1];
          }
        }
      }
      if IsSegment(s) {
        assert s[n] == '-' && n + 1 < |s|;
        assert !HyphensAt(s, n);
        assert rest[0] == s[n + 1] && rest[|rest| - 1] == s[|s| - 1];
        forall i | 0 <= i < |rest| - 1 ensures !HyphensAt(rest, i) {
          assert !HyphensAt(s, i + n + 1);
        }
        forall i | 0 <= i < |rest| ensures Alnum(rest[i]) || rest[i] == '-' {
          assert rest[i] == s[i + n + 1];
        }
      }
    }
  }

  lemma SegmentChars(s: string)
    requires MatchSegment(s)
    ensures AllTopicChars(s) && forall i :: 0 <= i < |s| ==> s[i] != '/'
  {
    SegmentsAreMatched(s);
  }

  lemma TopicChars(s: string)
    requires MatchTopic(s)
    ensures AllTopicChars(s) && '\n' !in s && s != ""
  {
    var n := Span(s, c => c != '/');
    if n == |s| {
      SegmentChars(s);
    } else {
      SegmentChars(s[..n]);
      SegmentChars(s[n + 1..]);
      forall i | 0 <= i < |s| ensures TopicChar(s[i]) {
        if i < n {
          assert s[i] == s[..n][i];
        } else if i > n {
          assert s[i] == s[n + 1..][i - n - 1];
        }
      }
    }
  }

  /** Every path in the grammar is accepted as it is. */
  lemma TopicsAreValid(lower: string -> string, s: string)
    requires Lowers(lower) && MatchTopic(s)
    ensures ValidateTopic(lower, s) == Some(s)
  {
    TopicChars(s);
  }

  lemma OneSegmentIsTopic(a: string)
    requires MatchSegment(a)
    ensures MatchTopic(a)
  {
    SegmentChars(a);
  }

  lemma TwoSegmentsAreTopic(a: string, b: string)
    requires MatchSegment(a) && MatchSegment(b)
    ensures MatchTopic(a + "/" + b)
  {
    SegmentChars(a);
    var s := a + "/" + b;
    var n := Span(s, c => c != '/');
    assert s[|a|] == '/';
    assert forall i :: 0 <= i < |a| ==> s[i] == a[i];
    assert n == |a|;
    assert s[..n] == a && s[n + 1..] == b;
  }

  /** A path in words: one segment, or two with a slash between them. */
  ghost predicate IsPath(s: string) {
    IsSegment(s) || exists a: string, b: string :: IsSegment(a) && IsSegment(b) && s == a + "/" + b
  }

  lemma MatchedIsPath(s: string)
    requires MatchTopic(s)
    ensures IsPath(s)
  {
    var n := Span(s, c => c != '/');
    if n == |s| {
      SegmentsAreMatched(s);
    } else {
      SegmentsAreMatched(s[..n]);
      SegmentsAreMatched(s[n + 1..]);
      assert s == s[..n] + "/" + s[n + 1..];
    }
  }

  lemma PathIsMatched(s: string)
    requires IsPath(s)
    ensures MatchTopic(s)
  {
    if IsSegment(s) {
      SegmentsAreMatched(s);
      OneSegmentIsTopic(s);
    } else {
      var a: string, b: string :| IsSegment(a) && IsSegment(b) && s == a + "/" + b;
      SegmentsAreMatched(a);
      SegmentsAreMatched(b);
      TwoSegmentsAreTopic(a, b);
    }
  }

  lemma PathsAreMatched(s: string)
    ensures MatchTopic(s) <==> IsPath(s)
  {
    if MatchTopic(s) {
      MatchedIsPath(s);
    }
    if IsPath(s) {
      PathIsMatched(s);
    }
  }

  /** A value is accepted exactly when it lowers to a path, or to a path and a newline, and the lowered value is returned. */
  lemma ValidatesExactly(lower: string -> string, value: string)
    ensures var v := lower(value);
      ValidateTopic(lower, value) ==
        if IsPath(v) || (exists path: string :: IsPath(path) && v == path + "\n") then Some(v) else None
  {
    var v := lower(value);
    PathsAreMatched(v);
    if v != "" && v[|v| - 1] == '\n' {
      PathsAreMatched(v[..|v| - 1]);
      assert v == v[..|v| - 1] + "\n";
    }
    if path: string :| IsPath(path) && v == path + "\n" {
      assert v[..|v| - 1] == path;
    }
  }

  // ------------------------------------------------------------------
  // Suggestions
  // ------------------------------------------------------------------

  /** `re.sub` of every run of characters outside `keep` by one hyphen. */
  function HyphenateRuns(s: string, keep: char -> bool): string
    decreases |s|
  {
    if s == "" then ""
    else if keep(s[0]) then [s[0]] + HyphenateRuns(s[1..], keep)
    else ['-'] + HyphenateRuns(s[1 + Span(s[1..], c => !keep(c))..], keep)
  }

  function Split(s: string): seq<string> {
    var n := Span(s, c => c != '/');
    if n == |s| then [s] else [s[..n]] + Split(s[n + 1..])
  }

  predicate IsHyphen(c: char) { c == '-' }
  predicate HyphenOrSlash(c: char) { c == '-' || c == '/' }
  predicate KeptBySub(c: char) { Alnum(c) || c == '/' }

  /** The parts that are not empty once their outer hyphens are gone. */
  function Parts(pieces: seq<string>): seq<string> {
    if pieces == [] then []
    else if Strip(pieces[0], IsHyphen) != "" then [Strip(pieces[0], IsHyphen)] + Parts(pieces[1..])
    else Parts(pieces[1..])
  }

  function Cleaned(lower: string -> string, raw: string): string {
    HyphenateRuns(Strip(HyphenateRuns(lower(raw), KeptBySub), HyphenOrSlash), c => c != '-')
  }

  function TopicSuggestions(lower: string -> string, raw: string): seq<string> {
    var parts := Parts(Split(Cleaned(lower, raw)));
    if parts == [] then [] else if |parts| == 1 then [parts[0]] else [parts[0] + "/" + parts[1]]
  }

  /** Alphanumerics, slashes and single hyphens: what cleaning leaves. */
  predicate Tidy(s: string) { AllTopicChars(s) && NoDoubleHyphen(s) }

  predicate HasAlnum(s: string) { exists i :: 0 <= i < |s| && Alnum(s[i]) }

  lemma AlnumCons(c: char, s: string)
    ensures HasAlnum([c] + s) <==> Alnum(c) || HasAlnum(s)
  {
    var all := [c] + s;
    if HasAlnum(s) {
      var i :| 0 <= i < |s| && Alnum(s[i]);
      assert all[i + 1] == s[i];
    }
    if Alnum(c) {
      assert all[0] == c;
    }
    if HasAlnum(all) && !Alnum(c) {
      var i :| 0 <= i < |all| && Alnum(all[i]);
      assert s[i - 1] == all[i];
    }
  }

  lemma AlnumAppend(a: string, b: string)
    ensures HasAlnum(a + b) <==> HasAlnum(a) || HasAlnum(b)
  {
    var all := a + b;
    assert forall i :: 0 <= i < |a| ==> all[i] == a[i];
    assert forall i :: 0 <= i < |b| ==> all[i + |a|] == b[i];
    if HasAlnum(all) {
      var i :| 0 <= i < |all| && Alnum(all[i]);
      assert i >= |a| ==> b[i - |a|] == all[i];
    }
  }

  ghost predicate KeepsAlnum(keep: char -> bool) { forall c :: Alnum(c) ==> keep(c) }

  lemma {:induction false} RunsHyphenated(s: string, keep: char -> bool)
    requires KeepsAlnum(keep)
    ensures HasAlnum(HyphenateRuns(s, keep)) <==> HasAlnum(s)
    ensures forall i :: 0 <= i < |HyphenateRuns(s, keep)| ==> keep(HyphenateRuns(s, keep)[i]) || HyphenateRuns(s, keep)[i] == '-'
    decreases |s|
  {
    if s != "" {
      if keep(s[0]) {
        RunsHyphenated(s[1..], keep);
        AlnumCons(s[0], s[1..]);
        AlnumCons(s[0], HyphenateRuns(s[1..], keep));
        assert s == [s[0]] + s[1..];
      } else {
        var n := 1 + Span(s[1..], c => !keep(c));
        RunsHyphenated(s[n..], keep);
        AlnumCons('-', HyphenateRuns(s[n..], keep));
        assert s == s[..n] + s[n..];
        AlnumAppend(s[..n], s[n..]);
        forall i | 0 <= i < n ensures !Alnum(s[..n][i]) {
          assert i > 0 ==> s[1..][i - 1] == s[i];
        }
      }
    }
  }

  /** Collapsing hyphens leaves no two in a row, and only characters that were there. */
  lemma {:induction false} HyphensCollapsed(s: string)
    requires AllTopicChars(s)
    ensures Tidy(HyphenateRuns(s, c => c != '-'))
    decreases |s|
  {
    var keep := (c: char) => c != '-';
    var r := HyphenateRuns(s, keep);
    if s != "" {
      var n := if keep(s[0]) then 1 else 1 + Span(s[1..], c => !keep(c));
      var rest := HyphenateRuns(s[n..], keep);
      HyphensCollapsed(s[n..]);
      assert r == [s[0]] + rest;
      if rest != "" && s[0] == '-' {
        assert s[n] == s[1..][n - 1] && keep(s[n]);
        assert rest[0] == s[n];
      }
      forall i | 0 <= i < |r| - 1 ensures !HyphensAt(r, i) {
        if i > 0 {
          assert !HyphensAt(rest, i - 1);
        }
      }
      forall i | 0 <= i < |r| ensures TopicChar(r[i]) {
        assert i > 0 ==> r[i] == rest[i - 1];
      }
    }
  }

  /** A contiguous part of a tidy string is tidy. */
  lemma TidySlice(s: string, i: nat, j: nat)
    requires Tidy(s) && i <= j <= |s|
    ensures Tidy(s[i..j])
  {
    var t := s[i..j];
    forall k | 0 <= k < |t| - 1 ensures !HyphensAt(t, k) {
      assert !HyphensAt(s, k + i);
    }
  }

  lemma {:induction false} StrippedRight(s: string, p: char -> bool)
    requires forall c :: p(c) ==> !Alnum(c)
    ensures var r := StripRight(s, p); r <= s && (r != "" ==> !p(r[|r| - 1])) && (HasAlnum(r) <==> HasAlnum(s))
  {
    if s != "" && p(s[|s| - 1]) {
      StrippedRight(s[..|s| - 1], p);
      assert s == s[..|s| - 1] + [s[|s| - 1]];
      AlnumAppend(s[..|s| - 1], [s[|s| - 1]]);
    }
  }

  lemma Stripped(s: string, p: char -> bool)
    requires forall c :: p(c) ==> !Alnum(c)
    ensures var r := Strip(s, p);
      && (exists i, j :: 0 <= i <= j <= |s| && r == s[i..j])
      && (r != "" ==> !p(r[0]) && !p(r[|r| - 1]))
      && (HasAlnum(r) <==> HasAlnum(s))
  {
    var n := Span(s, p);
    var left := StripLeft(s, p);
    StrippedRight(left, p);
    var r := Strip(s, p);
    assert r == s[n..n + |r|];
    assert s == s[..n] + left;
    AlnumAppend(s[..n], left);
  }

  lemma StripKeepsTidy(s: string, p: char -> bool)
    requires (forall c :: p(c) ==> !Alnum(c)) && Tidy(s)
    ensures Tidy(Strip(s, p))
  {
    Stripped(s, p);
    var i, j :| 0 <= i <= j <= |s| && Strip(s, p) == s[i..j];
    TidySlice(s, i, j);
  }

  predicate TidyPieces(pieces: seq<string>) {
    forall k :: 0 <= k < |pieces| ==> Tidy(pieces[k]) && '/' !in pieces[k]
  }

  lemma {:induction false} SplitTidy(s: string)
    requires Tidy(s)
    ensures TidyPieces(Split(s))
    decreases |s|
  {
    var n := Span(s, c => c != '/');
    TidySlice(s, 0, n);
    if n == |s| {
      assert s[..n] == s;
    } else {
      TidySlice(s, n + 1, |s|);
      assert s[n + 1..|s|] == s[n + 1..];
      SplitTidy(s[n + 1..]);
      var rest := Split(s[n + 1..]);
      forall k | 0 <= k < |Split(s)| ensures Tidy(Split(s)[k]) && '/' !in Split(s)[k] {
        assert k > 0 ==> Split(s)[k] == rest[k - 1];
      }
    }
  }

  lemma StrippedPieceIsSegment(piece: string)
    requires Tidy(piece) && '/' !in piece
    ensures Strip(piece, IsHyphen) != "" ==> MatchSegment(Strip(piece, IsHyphen))
    ensures Strip(piece, IsHyphen) != "" <==> HasAlnum(piece)
  {
    Stripped(piece, IsHyphen);
    StripKeepsTidy(piece, IsHyphen);
    var r := Strip(piece, IsHyphen);
    var i, j :| 0 <= i <= j <= |piece| && r == piece[i..j];
    forall k | 0 <= k < |r| ensures Alnum(r[k]) || r[k] == '-' {
      assert r[k] == piece[i + k] && piece[i + k] in piece;
      assert TopicChar(r[k]);
    }
    SegmentsAreMatched(r);
    if r != "" {
      assert Alnum(r[0]);
    }
  }

  predicate AllSegments(parts: seq<string>) { forall k :: 0 <= k < |parts| ==> MatchSegment(parts[k]) }

  predicate SomeAlnum(pieces: seq<string>) { exists k :: 0 <= k < |pieces| && HasAlnum(pieces[k]) }

  lemma SomeAlnumCons(first: string, rest: seq<string>)
    ensures SomeAlnum([first] + rest) <==> HasAlnum(first) || SomeAlnum(rest)
  {
    var all := [first] + rest;
    assert all[0] == first && forall k :: 0 <= k < |rest| ==> all[k + 1] == rest[k];
    if SomeAlnum(all) {
      var k :| 0 <= k < |all| && HasAlnum(all[k]);
      assert k > 0 ==> rest[k - 1] == all[k];
    }
  }

  lemma {:induction false} PartsAreSegments(pieces: seq<string>)
    requires TidyPieces(pieces)
    ensures AllSegments(Parts(pieces))
    ensures Parts(pieces) != [] <==> SomeAlnum(pieces)
  {
    if pieces != [] {
      var first, rest := pieces[0], pieces[1..];
      assert pieces == [first] + rest;
      StrippedPieceIsSegment(first);
      PartsAreSegments(rest);
      SomeAlnumCons(first, rest);
    }
  }

  lemma {:induction false} SplitKeepsAlnum(s: string)
    ensures SomeAlnum(Split(s)) <==> HasAlnum(s)
    decreases |s|
  {
    var n := Span(s, c => c != '/');
    if n == |s| {
      assert Split(s) == [s];
      if HasAlnum(s) {
        assert HasAlnum(Split(s)[0]);
      }
    } else {
      var rest := Split(s[n + 1..]);
      SplitKeepsAlnum(s[n + 1..]);
      assert Split(s) == [s[..n]] + rest;
      SomeAlnumCons(s[..n], rest);
      AlnumAroundSlash(s, n);
    }
  }

  lemma AlnumAroundSlash(s: string, n: nat)
    requires n < |s| && s[n] == '/'
    ensures HasAlnum(s) <==> HasAlnum(s[..n]) || HasAlnum(s[n + 1..])
  {
    var tail := s[n + 1..];
    assert s == s[..n] + (['/'] + tail);
    AlnumAppend(s[..n], ['/'] + tail);
    AlnumCons('/', tail);
  }

  lemma CleanedIsTidy(lower: string -> string, raw: string)
    ensures Tidy(Cleaned(lower, raw)) && (HasAlnum(Cleaned(lower, raw)) <==> HasAlnum(lower(raw)))
  {
    var first := HyphenateRuns(lower(raw), KeptBySub);
    RunsHyphenated(lower(raw), KeptBySub);
    Stripped(first, HyphenOrSlash);
    var mid := Strip(first, HyphenOrSlash);
    var i, j :| 0 <= i <= j <= |first| && mid == first[i..j];
    AllTopicCharsSlice(first, i, j);
    HyphensCollapsed(mid);
    RunsHyphenated(mid, c => c != '-');
  }

  lemma AllTopicCharsSlice(s: string, i: nat, j: nat)
    requires AllTopicChars(s) && i <= j <= |s|
    ensures AllTopicChars(s[i..j])
  {
    forall k | 0 <= k < j - i ensures TopicChar(s[i..j][k]) {
      assert s[i..j][k] == s[i + k];
    }
  }

  /** For every raw string: a suggestion is made exactly when some letter or digit survives lowering, and it is a
      path that validation accepts unchanged. */
  lemma SuggestionsParse(lower: string -> string, raw: string)
    requires Lowers(lower)
    ensures |TopicSuggestions(lower, raw)| == if HasAlnum(lower(raw)) then 1 else 0
    ensures forall v :: v in TopicSuggestions(lower, raw) ==> MatchTopic(v) && ValidateTopic(lower, v) == Some(v)
  {
    var pieces := Split(Cleaned(lower, raw));
    CleanedIsTidy(lower, raw);
    SplitTidy(Cleaned(lower, raw));
    SplitKeepsAlnum(Cleaned(lower, raw));
    PartsAreSegments(pieces);
    var parts := Parts(pieces);
    if |parts| == 1 {
      OneSegmentIsTopic(parts[0]);
      TopicsAreValid(lower, parts[0]);
    } else if |parts| > 1 {
      TwoSegmentsAreTopic(parts[0], parts[1]);
      TopicsAreValid(lower, parts[0] + "/" + parts[1]);
    }
  }

  /** A text as its segments between slashes, each as its words: the runs of letters and digits. */
  function Reading(s: string): (r: seq<seq<string>>)
    ensures r != [] && (s != "" && Alnum(s[0]) ==> r[0] != [])
  {
    if s == "" then [[]]
    else if s[0] == '/' then [[]] + Reading(s[1..])
    else if Alnum(s[0]) then WithLetter(s[0], |s| > 1 && Alnum(s[1]), Reading(s[1..]))
    else Reading(s[1..])
  }

  /** One more letter in front, joining the first word or starting one. */
  function WithLetter(c: char, joins: bool, later: seq<seq<string>>): (r: seq<seq<string>>)
    requires later != [] && (joins ==> later[0] != [])
    ensures r != [] && r[0] != [] && r[1..] == later[1..]
  {
    if joins then [[[c] + later[0][0]] + later[0][1..]] + later[1..] else [[[c]] + later[0]] + later[1..]
  }

  /** The words of a segment joined by single hyphens. */
  function Hyphenated(words: seq<string>): string {
    if words == [] then "" else if |words| == 1 then words[0] else words[0] + "-" + Hyphenated(words[1..])
  }

  /** The segments that have a word, each hyphenated. */
  function Slugs(segments: seq<seq<string>>): seq<string> {
    if segments == [] then []
    else if segments[0] == [] then Slugs(segments[1..])
    else [Hyphenated(segments[0])] + Slugs(segments[1..])
  }

  lemma ReadingFirst(c: char, t: string)
    ensures Reading([c] + t) ==
      if c == '/' then [[]] + Reading(t)
      else if Alnum(c) then WithLetter(c, t != "" && Alnum(t[0]), Reading(t))
      else Reading(t)
  {
    var s := [c] + t;
    assert s[1..] == t && s[0] == c && (t != "" ==> s[1] == t[0]);
  }

  lemma Cons(s: string)
    requires s != ""
    ensures s == [s[0]] + s[1..]
  {
  }

  /** Characters between words do not matter. */
  lemma {:induction false} ReadingSkips(s: string, n: nat)
    requires n <= |s| && forall i :: 0 <= i < n ==> !Alnum(s[i]) && s[i] != '/'
    ensures Reading(s[n..]) == Reading(s)
    decreases n
  {
    if n > 0 {
      ReadingSkips(s[1..], n - 1);
      assert s[1..][n - 1..] == s[n..];
    } else {
      assert s[0..] == s;
    }
  }

  lemma {:induction false} HyphenatingKeepsReading(s: string, keep: char -> bool)
    requires forall c :: Alnum(c) || c == '/' ==> keep(c)
    ensures Reading(HyphenateRuns(s, keep)) == Reading(s)
    ensures HyphenateRuns(s, keep) != "" && Alnum(HyphenateRuns(s, keep)[0]) <==> s != "" && Alnum(s[0])
    decreases |s|
  {
    if s != "" {
      Cons(s);
      if keep(s[0]) {
        HyphenatingKeepsReading(s[1..], keep);
        ReadingFirst(s[0], s[1..]);
        ReadingFirst(s[0], HyphenateRuns(s[1..], keep));
      } else {
        var n := 1 + Span(s[1..], c => !keep(c));
        HyphenatingKeepsReading(s[n..], keep);
        ReadingFirst('-', HyphenateRuns(s[n..], keep));
        forall i | 0 <= i < n ensures !Alnum(s[i]) && s[i] != '/' {
          assert i > 0 ==> s[1..][i - 1] == s[i];
        }
        ReadingSkips(s, n);
      }
    }
  }

  lemma {:induction false} ReadingAppends(s: string, c: char)
    requires HyphenOrSlash(c)
    ensures Reading(s + [c]) == if c == '/' then Reading(s) + [[]] else Reading(s)
  {
    if s == "" {
      assert s + [c] == [c] + "";
      ReadingFirst(c, "");
    } else {
      Cons(s);
      assert s + [c] == [s[0]] + (s[1..] + [c]);
      ReadingAppends(s[1..], c);
      ReadingFirst(s[0], s[1..] + [c]);
      LetterAppends(s[0], |s| > 1 && Alnum(s[1]), Reading(s[1..]));
      assert [[]] + (Reading(s[1..]) + [[]]) == ([[]] + Reading(s[1..])) + [[]];
    }
  }

  lemma LetterAppends(c: char, joins: bool, later: seq<seq<string>>)
    requires later != [] && (joins ==> later[0] != [])
    ensures WithLetter(c, joins, later + [[]]) == WithLetter(c, joins, later) + [[]]
  {
    assert (later + [[]])[1..] == later[1..] + [[]];
  }

  lemma {:induction false} SlugsAppend(segments: seq<seq<string>>)
    ensures Slugs(segments + [[]]) == Slugs(segments)
  {
    if segments == [] {
      assert segments + [[]] == [[]];
    } else {
      assert (segments + [[]])[1..] == segments[1..] + [[]];
      SlugsAppend(segments[1..]);
    }
  }

  lemma {:induction false} SlugsStripLeft(s: string, n: nat)
    requires n <= |s| && forall i :: 0 <= i < n ==> HyphenOrSlash(s[i])
    ensures Slugs(Reading(s[n..])) == Slugs(Reading(s))
    decreases n
  {
    if n > 0 {
      SlugsStripLeft(s[1..], n - 1);
      assert s[1..][n - 1..] == s[n..];
      assert ([[]] + Reading(s[1..]))[1..] == Reading(s[1..]);
    } else {
      assert s[0..] == s;
    }
  }

  lemma {:induction false} SlugsStripRight(s: string, p: char -> bool)
    requires forall c :: p(c) ==> HyphenOrSlash(c)
    ensures Slugs(Reading(StripRight(s, p))) == Slugs(Reading(s))
  {
    if s != "" && p(s[|s| - 1]) {
      var front, c := s[..|s| - 1], s[|s| - 1];
      assert s == front + [c];
      SlugsStripRight(front, p);
      ReadingAppends(front, c);
      SlugsAppend(Reading(front));
    }
  }

  lemma SlugsStrip(s: string, p: char -> bool)
    requires forall c :: p(c) ==> HyphenOrSlash(c)
    ensures Slugs(Reading(Strip(s, p))) == Slugs(Reading(s))
  {
    SlugsStripLeft(s, Span(s, p));
    SlugsStripRight(StripLeft(s, p), p);
  }

  lemma CleaningKeepsSlugs(lower: string -> string, raw: string)
    ensures Slugs(Reading(Cleaned(lower, raw))) == Slugs(Reading(lower(raw)))
  {
    var first := HyphenateRuns(lower(raw), KeptBySub);
    HyphenatingKeepsReading(lower(raw), KeptBySub);
    SlugsStrip(first, HyphenOrSlash);
    HyphenatingKeepsReading(Strip(first, HyphenOrSlash), c => c != '-');
  }

  /** One segment is read by itself. */
  lemma {:induction false} ReadingOfSegment(a: string, t: string)
    requires '/' !in a
    ensures |Reading(a)| == 1 && Reading(a + "/" + t) == Reading(a) + Reading(t)
  {
    if a == "" {
      assert a + "/" + t == ['/'] + t;
      ReadingFirst('/', t);
    } else {
      Cons(a);
      assert a + "/" + t == [a[0]] + (a[1..] + "/" + t);
      ReadingOfSegment(a[1..], t);
      ReadingFirst(a[0], a[1..] + "/" + t);
      assert |a| > 1 ==> (a[1..] + "/" + t)[0] == a[1];
      LetterBefore(a[0], |a| > 1 && Alnum(a[1]), Reading(a[1..]), Reading(t));
    }
  }

  lemma LetterBefore(c: char, joins: bool, first: seq<seq<string>>, later: seq<seq<string>>)
    requires |first| == 1 && (joins ==> first[0] != [])
    ensures WithLetter(c, joins, first + later) == WithLetter(c, joins, first) + later
  {
    assert (first + later)[1..] == later && first[1..] == [];
  }

  predicate OneWord(r: seq<seq<string>>, w: string) { |r| == 1 && |r[0]| == 1 && r[0][0] == w }

  lemma {:induction false} WordIsItself(s: string)
    requires s != "" && forall i :: 0 <= i < |s| ==> Alnum(s[i])
    ensures OneWord(Reading(s), s)
  {
    Cons(s);
    if |s| > 1 {
      WordIsItself(s[1..]);
      assert Alnum(s[1]);
    }
  }

  lemma {:induction false} WordBeforeHyphen(w: string, t: string)
    requires w != "" && forall i :: 0 <= i < |w| ==> Alnum(w[i])
    ensures Reading(w + "-" + t) == [[w] + Reading(t)[0]] + Reading(t)[1..]
  {
    Cons(w);
    var rest := w[1..] + "-" + t;
    assert w + "-" + t == [w[0]] + rest;
    ReadingFirst(w[0], rest);
    if |w| == 1 {
      assert rest == ['-'] + t && w == [w[0]];
      ReadingFirst('-', t);
    } else {
      WordBeforeHyphen(w[1..], t);
      assert rest[0] == w[1];
      assert ([w[1..]] + Reading(t)[0])[1..] == Reading(t)[0];
    }
  }

  /** A segment of the grammar is its own slug. */
  lemma {:induction false} SegmentIsItsSlug(s: string)
    requires MatchSegment(s)
    ensures |Reading(s)| == 1 && Reading(s)[0] != [] && Hyphenated(Reading(s)[0]) == s
  {
    var n := Span(s, Alnum);
    if n == |s| {
      WordIsItself(s);
    } else {
      var w, rest := s[..n], s[n + 1..];
      assert s == w + "-" + rest;
      SegmentIsItsSlug(rest);
      WordBeforeHyphen(w, rest);
      var words := [w] + Reading(rest)[0];
      assert words[1..] == Reading(rest)[0];
    }
  }

  lemma PieceSlug(piece: string)
    requires Tidy(piece) && '/' !in piece
    ensures Slugs(Reading(piece)) == if Strip(piece, IsHyphen) != "" then [Strip(piece, IsHyphen)] else []
  {
    var r := Strip(piece, IsHyphen);
    SlugsStrip(piece, IsHyphen);
    StrippedPieceIsSegment(piece);
    if r != "" {
      SegmentIsItsSlug(r);
      assert Reading(r)[1..] == [];
    } else {
      assert Slugs([[]]) == [];
    }
  }

  lemma SlugsOfTwo(first: seq<seq<string>>, later: seq<seq<string>>)
    requires |first| == 1
    ensures Slugs(first + later) == Slugs(first) + Slugs(later)
  {
    assert (first + later)[1..] == later && first[1..] == [];
  }

  lemma {:induction false} PartsAreSlugs(s: string)
    requires Tidy(s)
    ensures Parts(Split(s)) == Slugs(Reading(s))
    decreases |s|
  {
    var n := Span(s, c => c != '/');
    var first := s[..n];
    TidySlice(s, 0, n);
    assert s[0..n] == first;
    PieceSlug(first);
    if n == |s| {
      assert first == s && Split(s) == [s] && [s][1..] == [];
    } else {
      var rest := s[n + 1..];
      assert s == first + "/" + rest;
      TidySlice(s, n + 1, |s|);
      assert s[n + 1..|s|] == rest;
      PartsAreSlugs(rest);
      ReadingOfSegment(first, rest);
      SlugsOfTwo(Reading(first), Reading(rest));
      PartsFirst(first, Split(rest));
    }
  }

  lemma PartsFirst(first: string, rest: seq<string>)
    ensures Parts([first] + rest) == (if Strip(first, IsHyphen) != "" then [Strip(first, IsHyphen)] else []) + Parts(rest)
  {
    var pieces := [first] + rest;
    assert pieces[0] == first && pieces[1..] == rest;
  }

  /** The suggestion is the first two segments that have a letter or digit, in order, each as its hyphenated words. */
  lemma SuggestionExactly(lower: string -> string, raw: string)
    ensures var slugs := Slugs(Reading(lower(raw)));
      TopicSuggestions(lower, raw) ==
        if slugs == [] then [] else if |slugs| == 1 then [slugs[0]] else [slugs[0] + "/" + slugs[1]]
  {
    CleanedIsTidy(lower, raw);
    PartsAreSlugs(Cleaned(lower, raw));
    CleaningKeepsSlugs(lower, raw);
  }

  // ------------------------------------------------------------------
  // Hardening
  // ------------------------------------------------------------------

  predicate Printable(c: char) { c > ' ' && c != '\U{7f}' }

  function HardenTopicPath(lower: string -> string, raw: Option<string>, maxLen: nat): Option<string> {
    if raw.None? || raw.value == "" || |raw.value| > maxLen then None
    else
      var cleaned := Filter(raw.value, Printable);
      if cleaned == "" then None else ValidateTopic(lower, cleaned)
  }

  lemma {:induction false} FilterShortens(s: string, keep: char -> bool)
    ensures |Filter(s, keep)| <= |s|
  {
    if s != "" {
      FilterShortens(s[1..], keep);
    }
  }

  lemma {:induction false} FilterKeepsAll(s: string, keep: char -> bool)
    requires forall i :: 0 <= i < |s| ==> keep(s[i])
    ensures Filter(s, keep) == s
  {
    if s != "" {
      FilterKeepsAll(s[1..], keep);
      assert s == [s[0]] + s[1..];
    }
  }

  /** A hardened path is in the grammar and is a fixed point of hardening. */
  lemma HardenedIsFixed(lower: string -> string, raw: Option<string>, maxLen: nat)
    requires Lowers(lower) && HardenTopicPath(lower, raw, maxLen).Some?
    ensures MatchTopic(HardenTopicPath(lower, raw, maxLen).value)
    ensures HardenTopicPath(lower, HardenTopicPath(lower, raw, maxLen), maxLen) == HardenTopicPath(lower, raw, maxLen)
  {
    var cleaned := Filter(raw.value, Printable);
    var v := lower(cleaned);
    FilterShortens(raw.value, Printable);
    assert '\n' !in cleaned;
    assert '\n' !in v;
    assert v != "" ==> v[|v| - 1] in v;
    TopicChars(v);
    forall i | 0 <= i < |v| ensures Printable(v[i]) {
      assert TopicChar(v[i]);
    }
    FilterKeepsAll(v, Printable);
    TopicsAreValid(lower, v);
  }

  lemma {:induction false} FilterSame(s: string, p: char -> bool, q: char -> bool)
    requires forall c :: p(c) == q(c)
    ensures Filter(s, p) == Filter(s, q)
  {
    if s != "" {
      FilterSame(s[1..], p, q);
    }
  }

  /** Exactly what is accepted: a raw path of allowed length that is in the grammar once the characters up to the blank
      and the delete character are taken out and the rest is lowered; that text is the path. */
  lemma HardenAcceptsExactly(lower: string -> string, raw: string, maxLen: nat)
    requires Lowers(lower)
    ensures var v := lower(Filter(raw, c => '\U{20}' < c != '\U{7f}'));
      HardenTopicPath(lower, Some(raw), maxLen) == if |raw| <= maxLen && MatchTopic(v) then Some(v) else None
  {
    var cleaned := Filter(raw, Printable);
    FilterSame(raw, Printable, c => '\U{20}' < c != '\U{7f}');
    assert AllTopicChars("") && lower("") == "";
    if HardenTopicPath(lower, Some(raw), maxLen).Some? {
      HardenedIsFixed(lower, Some(raw), maxLen);
    } else if |raw| <= maxLen && MatchTopic(lower(cleaned)) {
      TopicChars(lower(cleaned));
      FilterShortens(raw, Printable);
    }
  }
}
