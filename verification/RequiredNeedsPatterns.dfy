/** The line grammar against its regular expressions: each line test holds of exactly the lines its expression matches.
    The expressions are those of tools/check_required_needs.py. */
module RequiredNeedsPatterns {
  import opened Prelude
  import opened RequiredNeeds
  import opened RequiredNeedsSelfTest

  /** As much of regular expressions as is used: `Many` and `Maybe` are the star and the question mark. */
  datatype Pattern =
    | Text(text: string)
    | One(chars: char -> bool)
    | Many(chars: char -> bool)
    | Maybe(option: Pattern)
    | Then(first: Pattern, second: Pattern)

  /** The whole of `s` matches. */
  ghost predicate Matches(p: Pattern, s: string) {
    match p
    case Text(text) => s == text
    case One(chars) => |s| == 1 && chars(s[0])
    case Many(chars) => forall i :: 0 <= i < |s| ==> chars(s[i])
    case Maybe(option) => s == "" || Matches(option, s)
    case Then(first, second) => exists k :: 0 <= k <= |s| && Matches(first, s[..k]) && Matches(second, s[k..])
  }

  const ANY := (c: char) => true
  const SPACE := (c: char) => c == ' '
  const BLANK := (c: char) => c == ' ' || c == '\t'
  const QUOTE := (c: char) => c == '\'' || c == '"'
  const DIGIT := (c: char) => '0' <= c <= '9'
  const SIGN := (c: char) => c == '+' || c == '-'
  const BAR := (c: char) => c == '|' || c == '>'
  const FIRST := (c: char) => 'A' <= c <= 'Z' || 'a' <= c <= 'z' || c == '_'
  const LATER := (c: char) => 'A' <= c <= 'Z' || 'a' <= c <= 'z' || '0' <= c <= '9' || c == '_' || c == '-'
  const KEY := (c: char) => 'A' <= c <= 'Z' || 'a' <= c <= 'z' || '0' <= c <= '9' || c == '_' || c == '-' || c == '.'

  const ID := Then(One(FIRST), Many(LATER))
  const HASH := Then(Text("#"), Many(ANY))
  const COMMENT := Then(One(BLANK), Then(Many(BLANK), HASH))
  const END := Then(Maybe(COMMENT), Many(BLANK))

  function Quoted(indent: string, word: string): Pattern {
    Then(Text(indent), Then(Maybe(One(QUOTE)), Then(Text(word), Then(Maybe(One(QUOTE)), COLON))))
  }

  const COLON := Then(Many(BLANK), Then(Text(":"), Many(ANY)))

  /** A named group that matches `id` alone is written as that text. */
  function Header(id: Pattern): Pattern { Then(Text("  "), Then(id, Then(Text(":"), END))) }
  function Item(id: Pattern): Pattern { Then(Text("      - "), Then(id, END)) }
  function Key(indent: string): Pattern { Then(Text(indent), Then(ID, Then(Text(":"), Many(ANY)))) }

  const INDICATOR := Then(Maybe(One(SIGN)), Then(Maybe(One(DIGIT)), Then(Maybe(One(SIGN)), END)))
  const SCALAR_KEY := Then(One(KEY), Then(Many(KEY), Then(Text(":"), Then(Many(BLANK), Then(One(BAR), INDICATOR)))))
  const DASH := Then(Text("- "), Many(SPACE))
  const BLOCK_SCALAR := Then(Many(SPACE), Then(Maybe(DASH), SCALAR_KEY))

  // ------------------------------------------------------------------
  // Matching from the left
  // ------------------------------------------------------------------

  lemma Split(first: Pattern, second: Pattern, s: string) returns (k: nat)
    requires Matches(Then(first, second), s)
    ensures k <= |s| && Matches(first, s[..k]) && Matches(second, s[k..])
  {
    k :| 0 <= k <= |s| && Matches(first, s[..k]) && Matches(second, s[k..]);
  }

  lemma SplitHolds(first: Pattern, second: Pattern, s: string, k: nat)
    requires k <= |s| && Matches(first, s[..k]) && Matches(second, s[k..])
    ensures Matches(Then(first, second), s)
  {
  }

  lemma ThenText(text: string, rest: Pattern, s: string)
    ensures Matches(Then(Text(text), rest), s) <==> StartsWith(s, text) && Matches(rest, s[|text|..])
  {
    if Matches(Then(Text(text), rest), s) {
      var k := Split(Text(text), rest, s);
      assert |s[..k]| == k;
    }
    if StartsWith(s, text) && Matches(rest, s[|text|..]) {
      SplitHolds(Text(text), rest, s, |text|);
    }
  }

  lemma ThenOne(chars: char -> bool, rest: Pattern, s: string)
    ensures Matches(Then(One(chars), rest), s) <==> s != "" && chars(s[0]) && Matches(rest, s[1..])
  {
    if Matches(Then(One(chars), rest), s) {
      var k := Split(One(chars), rest, s);
      assert |s[..k]| == k && s[..k][0] == s[0];
    }
    if s != "" && chars(s[0]) && Matches(rest, s[1..]) {
      assert s[..1][0] == s[0];
      SplitHolds(One(chars), rest, s, 1);
    }
  }

  lemma ThenMaybe(option: Pattern, rest: Pattern, s: string)
    ensures Matches(Then(Maybe(option), rest), s) <==> Matches(rest, s) || Matches(Then(option, rest), s)
  {
    if Matches(Then(Maybe(option), rest), s) {
      var k := Split(Maybe(option), rest, s);
      if Matches(option, s[..k]) {
        SplitHolds(option, rest, s, k);
      } else {
        assert s[k..] == s;
      }
    }
    if Matches(rest, s) {
      assert s[..0] == "" && s[0..] == s;
      SplitHolds(Maybe(option), rest, s, 0);
    }
    if Matches(Then(option, rest), s) {
      var k := Split(option, rest, s);
      SplitHolds(Maybe(option), rest, s, k);
    }
  }

  /** No text that matches starts with such a character. */
  ghost predicate NeverStarts(p: Pattern, chars: char -> bool) { forall s :: Matches(p, s) && s != "" ==> !chars(s[0]) }

  /** A star is greedy without loss when what follows cannot start with its characters. */
  lemma ThenMany(chars: char -> bool, rest: Pattern, s: string)
    requires NeverStarts(rest, chars)
    ensures Matches(Then(Many(chars), rest), s) <==> Matches(rest, s[Span(s, chars)..])
  {
    if Matches(Then(Many(chars), rest), s) {
      var k := Split(Many(chars), rest, s);
      assert forall i :: 0 <= i < k ==> s[..k][i] == s[i];
      assert k < |s| ==> s[k..][0] == s[k];
      SpanIs(s, chars, k);
    }
    if Matches(rest, s[Span(s, chars)..]) {
      SplitHolds(Many(chars), rest, s, Span(s, chars));
    }
  }

  lemma Regroup(a: Pattern, b: Pattern, c: Pattern, s: string)
    requires Matches(Then(a, Then(b, c)), s)
    ensures Matches(Then(Then(a, b), c), s)
  {
    var m := Split(a, Then(b, c), s);
    var l := Split(b, c, s[m..]);
    var k := m + l;
    assert s[..k][..m] == s[..m] && s[..k][m..] == s[m..][..l] && s[m..][l..] == s[k..];
    SplitHolds(a, b, s[..k], m);
    SplitHolds(Then(a, b), c, s, k);
  }

  lemma Ungroup(a: Pattern, b: Pattern, c: Pattern, s: string)
    requires Matches(Then(Then(a, b), c), s)
    ensures Matches(Then(a, Then(b, c)), s)
  {
    var k := Split(Then(a, b), c, s);
    var m := Split(a, b, s[..k]);
    assert s[..k][..m] == s[..m] && s[..k][m..] == s[m..][..k - m] && s[m..][k - m..] == s[k..];
    SplitHolds(b, c, s[m..], k - m);
    SplitHolds(a, Then(b, c), s, m);
  }

  lemma SpanSame(s: string, p: char -> bool, q: char -> bool)
    requires forall c :: p(c) == q(c)
    ensures Span(s, p) == Span(s, q)
  {
    SpanIs(s, p, Span(s, q));
  }

  // ------------------------------------------------------------------
  // The end of a line
  // ------------------------------------------------------------------

  lemma HashMatches(s: string)
    ensures Matches(HASH, s) <==> s != "" && s[0] == '#'
  {
    ThenText("#", Many(ANY), s);
    assert s != "" ==> s[..1][0] == s[0] && |s[..1]| == 1;
    assert Matches(Many(ANY), if s == "" then s else s[1..]);
  }

  lemma BlanksThenHash(s: string)
    ensures Matches(Then(Many(BLANK), HASH), s) <==> var n := Span(s, IsBlank); n < |s| && s[n] == '#'
  {
    forall t | Matches(HASH, t) && t != "" ensures !BLANK(t[0]) {
      HashMatches(t);
    }
    ThenMany(BLANK, HASH, s);
    SpanSame(s, BLANK, IsBlank);
    HashMatches(s[Span(s, IsBlank)..]);
  }

  lemma CommentMatches(s: string)
    ensures Matches(COMMENT, s) <==> var n := Span(s, IsBlank); 0 < n < |s| && s[n] == '#'
  {
    ThenOne(BLANK, Then(Many(BLANK), HASH), s);
    if s != "" {
      BlanksThenHash(s[1..]);
    }
  }

  lemma EndMatches(s: string)
    ensures Matches(END, s) <==> Trailer(s)
  {
    ThenMaybe(COMMENT, Many(BLANK), s);
    SpanSame(s, BLANK, IsBlank);
    if Matches(Then(COMMENT, Many(BLANK)), s) {
      var k := Split(COMMENT, Many(BLANK), s);
      CommentMatches(s[..k]);
      SpanIs(s, IsBlank, Span(s[..k], IsBlank));
    }
    CommentMatches(s);
    if Matches(COMMENT, s) {
      assert s[..|s|] == s && s[|s|..] == "";
      SplitHolds(COMMENT, Many(BLANK), s, |s|);
    }
    BlanksOnly(s);
  }

  lemma BlanksOnly(s: string)
    ensures Matches(Many(BLANK), s) <==> Span(s, IsBlank) == |s|
  {
    SpanSame(s, BLANK, IsBlank);
  }

  // ------------------------------------------------------------------
  // Ids and keys
  // ------------------------------------------------------------------

  lemma IdThen(rest: Pattern, s: string)
    requires NeverStarts(rest, LATER)
    ensures Matches(Then(ID, rest), s) <==> IdLength(s) > 0 && Matches(rest, s[IdLength(s)..])
  {
    if Matches(Then(ID, rest), s) {
      Ungroup(One(FIRST), Many(LATER), rest, s);
    }
    ThenOne(FIRST, Then(Many(LATER), rest), s);
    if s != "" && FIRST(s[0]) {
      ThenMany(LATER, rest, s[1..]);
      SpanSame(s[1..], LATER, IsIdChar);
      assert Span(s, IsIdChar) == 1 + Span(s[1..], IsIdChar);
      assert s[1..][Span(s[1..], IsIdChar)..] == s[IdLength(s)..];
    }
    if Matches(Then(One(FIRST), Then(Many(LATER), rest)), s) {
      Regroup(One(FIRST), Many(LATER), rest, s);
    }
  }

  lemma ColonNeverStarts(rest: Pattern, chars: char -> bool)
    requires !chars(':')
    ensures NeverStarts(Then(Text(":"), rest), chars)
  {
    forall s | Matches(Then(Text(":"), rest), s) && s != "" ensures !chars(s[0]) {
      ThenText(":", rest, s);
      StartsAt(s, ":", 0);
    }
  }

  lemma ThenColon(rest: Pattern, s: string)
    ensures Matches(Then(Text(":"), rest), s) <==> s != "" && s[0] == ':' && Matches(rest, s[1..])
  {
    ThenText(":", rest, s);
    if StartsWith(s, ":") {
      StartsAt(s, ":", 0);
    }
    assert s != "" && s[0] == ':' ==> s[..1] == ":";
  }

  lemma IdColonThen(rest: Pattern, s: string)
    ensures Matches(Then(ID, Then(Text(":"), rest)), s) <==> IdColon(s) > 0 && Matches(rest, s[IdColon(s) + 1..])
  {
    var n := IdLength(s);
    ColonNeverStarts(rest, LATER);
    IdThen(Then(Text(":"), rest), s);
    ThenColon(rest, s[n..]);
    assert n < |s| ==> s[n..][0] == s[n] && s[n..][1..] == s[n + 1..];
  }

  lemma AnyMatches(s: string)
    ensures Matches(Many(ANY), s)
  {
  }

  lemma TopLevelMatches(line: Line)
    ensures TopLevel(line) <==> Matches(Then(One(c => !IsSpace(c) && c != '#'), Many(ANY)), line)
  {
    ThenOne(c => !IsSpace(c) && c != '#', Many(ANY), line);
    AnyMatches(if line != "" then line[1..] else "");
  }

  lemma TopLevelKeyMatches(line: Line)
    ensures TopLevelKey(line) <==> Matches(Key(""), line)
  {
    ThenText("", Then(ID, Then(Text(":"), Many(ANY))), line);
    assert line[..0] == "" && line[0..] == line;
    IdColonThen(Many(ANY), line);
    AnyMatches(if IdColon(line) > 0 then line[IdColon(line) + 1..] else "");
  }

  lemma BodyKeyMatches(line: Line)
    ensures BodyKey(line) <==> Matches(Key("    "), line)
  {
    ThenText("    ", Then(ID, Then(Text(":"), Many(ANY))), line);
    if StartsWith(line, "    ") {
      IdColonThen(Many(ANY), line[4..]);
      AnyMatches(if IdColon(line[4..]) > 0 then line[4..][IdColon(line[4..]) + 1..] else "");
    }
  }

  lemma JobsKeyMatches(line: Line)
    ensures JobsKey(line) <==> Matches(Then(Text("jobs:"), END), line)
  {
    ThenText("jobs:", END, line);
    if StartsWith(line, "jobs:") {
      EndMatches(line[5..]);
    }
  }

  lemma NeedsKeyMatches(line: Line)
    ensures NeedsKey(line) <==> Matches(Then(Text("    needs:"), END), line)
  {
    ThenText("    needs:", END, line);
    if StartsWith(line, "    needs:") {
      EndMatches(line[10..]);
    }
  }

  // ------------------------------------------------------------------
  // Named groups
  // ------------------------------------------------------------------

  lemma IdMatches(id: string)
    ensures Matches(ID, id) <==> id != "" && IdLength(id) == |id|
  {
    ThenOne(FIRST, Many(LATER), id);
    if id != "" {
      SpanSame(id[1..], LATER, IsIdChar);
    }
  }

  /** An id ends where something else begins. */
  lemma IdAtFront(s: string, id: string)
    requires Matches(ID, id) && StartsWith(s, id) && (|id| < |s| ==> !LATER(s[|id|]))
    ensures IdLength(s) == |id|
  {
    IdMatches(id);
    forall i | 0 <= i < |id| ensures s[i] == id[i] {
      StartsAt(s, id, i);
    }
    SpanIs(s, IsIdChar, |id|);
  }

  lemma IdIsId(s: string)
    requires IdLength(s) > 0
    ensures Matches(ID, s[..IdLength(s)])
  {
    var id := s[..IdLength(s)];
    SpanIs(id, IsIdChar, |id|);
    IdMatches(id);
  }

  /** What follows a header's id. */
  predicate AfterId(t: string) { t != "" && t[0] == ':' && Trailer(t[1..]) }

  lemma HeaderIs(line: Line, id: string)
    ensures Matches(Header(Text(id)), line) <==>
      StartsWith(line, "  ") && StartsWith(line[2..], id) && AfterId(line[2..][|id|..])
  {
    var rest := Then(Text(":"), END);
    ThenText("  ", Then(Text(id), rest), line);
    if StartsWith(line, "  ") {
      ThenText(id, rest, line[2..]);
      if StartsWith(line[2..], id) {
        var t := line[2..][|id|..];
        ThenColon(END, t);
        EndMatches(if t != "" then t[1..] else t);
      }
    }
  }

  lemma HeaderAt(s: string, id: string)
    requires id != ""
    ensures Matches(ID, id) && StartsWith(s, id) && AfterId(s[|id|..]) <==>
      IdColon(s) > 0 && Trailer(s[IdColon(s) + 1..]) && s[..IdColon(s)] == id
  {
    if Matches(ID, id) && StartsWith(s, id) && AfterId(s[|id|..]) {
      IdAtFront(s, id);
      assert s[|id|..][1..] == s[|id| + 1..];
    }
    if IdColon(s) > 0 && Trailer(s[IdColon(s) + 1..]) && s[..IdColon(s)] == id {
      IdIsId(s);
      assert s[|id|..][1..] == s[|id| + 1..];
    }
  }

  lemma JobHeaderMatches(line: Line, id: string)
    requires id != ""
    ensures JobHeader(line) == id <==> Matches(ID, id) && Matches(Header(Text(id)), line)
  {
    HeaderIs(line, id);
    if StartsWith(line, "  ") {
      HeaderAt(line[2..], id);
    }
  }

  lemma NeedsItemMatches(line: Line, id: string)
    requires id != ""
    ensures NeedsItem(line) == id <==> Matches(ID, id) && Matches(Item(Text(id)), line)
  {
    ThenText("      - ", Then(Text(id), END), line);
    if StartsWith(line, "      - ") {
      var s := line[8..];
      ThenText(id, END, s);
      if StartsWith(s, id) {
        var t := s[|id|..];
        EndMatches(t);
        assert t != "" ==> t[0] == s[|id|];
        if Matches(ID, id) && Matches(END, t) {
          IdAtFront(s, id);
        }
      }
      if IdLength(s) > 0 {
        IdIsId(s);
      }
    }
  }

  // ------------------------------------------------------------------
  // Quoted keys
  // ------------------------------------------------------------------

  /** An optional character is taken greedily without loss when what follows can do without it. */
  lemma ThenMaybeOne(chars: char -> bool, rest: Pattern, s: string)
    requires Matches(rest, s) && s != "" && chars(s[0]) ==> Matches(rest, s[1..])
    ensures Matches(Then(Maybe(One(chars)), rest), s) <==> Matches(rest, DropIf(s, chars))
  {
    ThenMaybe(One(chars), rest, s);
    ThenOne(chars, rest, s);
  }

  lemma DropSame(s: string, p: char -> bool, q: char -> bool)
    requires forall c :: p(c) == q(c)
    ensures DropIf(s, p) == DropIf(s, q)
  {
  }

  lemma ColonMatches(s: string)
    ensures Matches(COLON, s) <==> var n := Span(s, IsBlank); n < |s| && s[n] == ':'
  {
    var n := Span(s, IsBlank);
    ColonNeverStarts(Many(ANY), BLANK);
    ThenMany(BLANK, Then(Text(":"), Many(ANY)), s);
    SpanSame(s, BLANK, IsBlank);
    ThenColon(Many(ANY), s[n..]);
    AnyMatches(if n < |s| then s[n..][1..] else "");
  }

  lemma ColonNoQuote(s: string)
    ensures Matches(Then(Maybe(One(QUOTE)), COLON), s) <==> Matches(COLON, DropIf(s, QUOTE))
  {
    ColonMatches(s);
    ThenMaybeOne(QUOTE, COLON, s);
  }

  lemma WordNoQuote(word: string, rest: Pattern, s: string)
    requires word != "" && !QUOTE(word[0])
    ensures Matches(Then(Maybe(One(QUOTE)), Then(Text(word), rest)), s) <==> Matches(Then(Text(word), rest), DropIf(s, QUOTE))
  {
    ThenText(word, rest, s);
    if StartsWith(s, word) {
      StartsAt(s, word, 0);
    }
    ThenMaybeOne(QUOTE, Then(Text(word), rest), s);
  }

  lemma QuotedMatches(s: string, word: string)
    requires word != "" && !QUOTE(word[0])
    ensures QuotedKey(s, word) <==> Matches(Quoted("", word), s)
  {
    var tail := Then(Maybe(One(QUOTE)), COLON);
    var s1 := DropIf(s, QUOTE);
    ThenText("", Then(Maybe(One(QUOTE)), Then(Text(word), tail)), s);
    assert s[..0] == "" && s[0..] == s;
    WordNoQuote(word, tail, s);
    ThenText(word, tail, s1);
    if StartsWith(s1, word) {
      ColonNoQuote(s1[|word|..]);
      ColonMatches(DropIf(s1[|word|..], QUOTE));
    }
  }

  lemma JobsAnyMatches(line: Line)
    ensures JobsAny(line) <==> Matches(Quoted("", "jobs"), line)
  {
    QuotedMatches(line, "jobs");
  }

  lemma NeedsAnyMatches(line: Line)
    ensures NeedsAny(line) <==> Matches(Quoted("    ", "needs"), line)
  {
    var rest := Then(Maybe(One(QUOTE)), Then(Text("needs"), Then(Maybe(One(QUOTE)), COLON)));
    ThenText("    ", rest, line);
    if StartsWith(line, "    ") {
      var s := line[4..];
      QuotedMatches(s, "needs");
      ThenText("", rest, s);
      assert s[..0] == "" && s[0..] == s;
    }
  }

  // ------------------------------------------------------------------
  // Block scalars
  // ------------------------------------------------------------------

  const SECOND_SIGN := Then(Maybe(One(SIGN)), END)
  const DIGIT_AND_SIGN := Then(Maybe(One(DIGIT)), SECOND_SIGN)

  lemma SecondSignMatches(s: string)
    ensures Matches(SECOND_SIGN, s) <==> Trailer(DropIf(s, SIGN))
  {
    EndMatches(s);
    EndMatches(DropIf(s, SIGN));
    ThenMaybeOne(SIGN, END, s);
  }

  lemma DigitMatches(s: string)
    ensures Matches(DIGIT_AND_SIGN, s) <==> Trailer(DropIf(DropIf(s, DIGIT), SIGN))
  {
    SecondSignMatches(s);
    SecondSignMatches(DropIf(s, DIGIT));
    ThenMaybeOne(DIGIT, SECOND_SIGN, s);
  }

  lemma IndicatorMatches(s: string)
    ensures Matches(INDICATOR, s) <==> Trailer(DropIf(DropIf(DropIf(s, SIGN), DIGIT), SIGN))
  {
    DigitMatches(s);
    DigitMatches(DropIf(s, SIGN));
    if s != "" && SIGN(s[0]) && Trailer(s[1..]) {
      assert DropIf(s[1..], DIGIT) == s[1..] && DropIf(s[1..], SIGN) == s[1..];
    }
    ThenMaybeOne(SIGN, DIGIT_AND_SIGN, s);
  }

  lemma BarMatches(s: string)
    ensures Matches(Then(Many(BLANK), Then(One(BAR), INDICATOR)), s) <==> ScalarIndicator(s)
  {
    var n := Span(s, IsBlank);
    forall t | Matches(Then(One(BAR), INDICATOR), t) && t != "" ensures !BLANK(t[0]) {
      ThenOne(BAR, INDICATOR, t);
    }
    ThenMany(BLANK, Then(One(BAR), INDICATOR), s);
    SpanSame(s, BLANK, IsBlank);
    ThenOne(BAR, INDICATOR, s[n..]);
    if n < |s| {
      var t := s[n + 1..];
      assert s[n..][0] == s[n] && s[n..][1..] == t;
      IndicatorMatches(t);
      DropSame(t, SIGN, c => c == '+' || c == '-');
      DropSame(DropIf(t, SIGN), DIGIT, IsDigit);
      DropSame(DropIf(DropIf(t, SIGN), DIGIT), SIGN, c => c == '+' || c == '-');
    }
  }

  predicate KeyedScalar(s: string) {
    var n := Span(s, IsKeyChar);
    0 < n < |s| && s[n] == ':' && ScalarIndicator(s[n + 1..])
  }

  lemma ScalarKeyMatches(s: string)
    ensures Matches(SCALAR_KEY, s) <==> KeyedScalar(s)
  {
    var bar := Then(Many(BLANK), Then(One(BAR), INDICATOR));
    ThenOne(KEY, Then(Many(KEY), Then(Text(":"), bar)), s);
    if s != "" && KEY(s[0]) {
      var t := s[1..];
      var n := Span(t, IsKeyChar);
      ColonNeverStarts(bar, KEY);
      ThenMany(KEY, Then(Text(":"), bar), t);
      SpanSame(t, KEY, IsKeyChar);
      ThenColon(bar, t[n..]);
      assert Span(s, IsKeyChar) == n + 1;
      if n < |t| {
        assert t[n..][0] == s[n + 1] && t[n..][1..] == s[n + 2..];
        BarMatches(s[n + 2..]);
      }
    }
  }

  lemma DashMatches(s: string)
    ensures Matches(Then(DASH, SCALAR_KEY), s) <==> StartsWith(s, "- ") && KeyedScalar(s[1..][Spaces(s[1..])..])
  {
    if Matches(Then(DASH, SCALAR_KEY), s) {
      Ungroup(Text("- "), Many(SPACE), SCALAR_KEY, s);
    }
    ThenText("- ", Then(Many(SPACE), SCALAR_KEY), s);
    if StartsWith(s, "- ") {
      StartsAt(s, "- ", 1);
      var t := s[2..];
      ScalarKeyNoSpace();
      ThenMany(SPACE, SCALAR_KEY, t);
      SpanSame(t, SPACE, c => c == ' ');
      assert s[1..][1..] == t && Spaces(s[1..]) == 1 + Spaces(t);
      assert s[1..][1 + Spaces(t)..] == t[Spaces(t)..];
      ScalarKeyMatches(t[Spaces(t)..]);
    }
    if Matches(Then(Text("- "), Then(Many(SPACE), SCALAR_KEY)), s) {
      Regroup(Text("- "), Many(SPACE), SCALAR_KEY, s);
    }
  }

  lemma ScalarKeyNoSpace()
    ensures NeverStarts(SCALAR_KEY, SPACE)
  {
    forall s | Matches(SCALAR_KEY, s) && s != "" ensures !SPACE(s[0]) {
      ScalarKeyMatches(s);
    }
  }

  lemma DashIsNoKey(s: string)
    requires StartsWith(s, "- ")
    ensures !KeyedScalar(s) && !SPACE(s[0])
  {
    StartsAt(s, "- ", 0);
    StartsAt(s, "- ", 1);
    SpanIs(s, IsKeyChar, 1);
  }

  predicate DashedScalar(s: string) { KeyedScalar(if StartsWith(s, "- ") then s[1..][Spaces(s[1..])..] else s) }

  lemma DashOrKeyMatches(s: string)
    ensures Matches(Then(Maybe(DASH), SCALAR_KEY), s) <==> DashedScalar(s)
  {
    ThenMaybe(DASH, SCALAR_KEY, s);
    DashMatches(s);
    ScalarKeyMatches(s);
    if StartsWith(s, "- ") {
      DashIsNoKey(s);
    }
  }

  lemma DashedNoSpace(s: string)
    requires DashedScalar(s)
    ensures s != "" ==> !SPACE(s[0])
  {
    if StartsWith(s, "- ") {
      DashIsNoKey(s);
    }
  }

  lemma SpacesFirst(line: Line)
    ensures Matches(BLOCK_SCALAR, line) <==> Matches(Then(Maybe(DASH), SCALAR_KEY), line[Spaces(line)..])
  {
    forall s | Matches(Then(Maybe(DASH), SCALAR_KEY), s) && s != "" ensures !SPACE(s[0]) {
      DashOrKeyMatches(s);
      DashedNoSpace(s);
    }
    ThenMany(SPACE, Then(Maybe(DASH), SCALAR_KEY), line);
    SpanSame(line, SPACE, c => c == ' ');
  }

  lemma BlockScalarMatches(line: Line)
    ensures BlockScalar(line) <==> Matches(BLOCK_SCALAR, line)
  {
    var s := line[Spaces(line)..];
    SpacesFirst(line);
    DashOrKeyMatches(s);
  }

  // ------------------------------------------------------------------
  // All tests on a line
  // ------------------------------------------------------------------

  const COMMENT_LINE := Then(Many(IsSpace), HASH)
  const TABBED := Then(Many(SPACE), Then(Text("\t"), Many(ANY)))

  lemma CommentLineMatches(line: Line)
    ensures CommentLine(line) <==> Matches(COMMENT_LINE, line)
  {
    forall t | Matches(HASH, t) && t != "" ensures !IsSpace(t[0]) {
      HashMatches(t);
    }
    ThenMany(IsSpace, HASH, line);
    HashMatches(line[Span(line, IsSpace)..]);
  }

  lemma TabMatches(line: Line)
    ensures Matches(TABBED, line) <==> Spaces(line) < |line| && line[Spaces(line)] == '\t'
  {
    var rest := Then(Text("\t"), Many(ANY));
    forall t ensures Matches(rest, t) <==> t != "" && t[0] == '\t' {
      ThenText("\t", Many(ANY), t);
      assert t != "" ==> t[..1][0] == t[0] && |t[..1]| == 1;
      AnyMatches(if t != "" then t[1..] else t);
    }
    ThenMany(SPACE, rest, line);
    SpanSame(line, SPACE, c => c == ' ');
  }

  /** What the parser sees of a line, each test by its expression. */
  lemma ShapeExactly(line: Line)
    ensures var s := ShapeOf(line);
      && (s.blank <==> Matches(Many(IsSpace), line))
      && (s.ignored <==> Matches(Many(IsSpace), line) || Matches(COMMENT_LINE, line))
      && (s.tab <==> Matches(TABBED, line))
      && (s.scalar <==> Matches(BLOCK_SCALAR, line))
      && (s.jobsLike <==> Matches(Quoted("", "jobs"), line))
      && (s.jobsKey <==> Matches(Then(Text("jobs:"), END), line))
      && (s.top <==> Matches(Then(One(c => !IsSpace(c) && c != '#'), Many(ANY)), line))
      && (s.topKey <==> Matches(Key(""), line))
      && (s.bodyKey <==> Matches(Key("    "), line))
      && (s.needsLike <==> Matches(Quoted("    ", "needs"), line))
      && (s.needsKey <==> Matches(Then(Text("    needs:"), END), line))
  {
    BlankMatches(line);
    CommentLineMatches(line);
    TabMatches(line);
    BlockScalarMatches(line);
    JobsAnyMatches(line);
    JobsKeyMatches(line);
    TopLevelMatches(line);
    TopLevelKeyMatches(line);
    BodyKeyMatches(line);
    NeedsAnyMatches(line);
    NeedsKeyMatches(line);
  }

  lemma BlankMatches(line: Line)
    ensures AllSpace(line) <==> Matches(Many(IsSpace), line)
  {
  }

  /** The names the parser takes from a line: those of the named groups. */
  lemma NamesExactly(line: Line, id: string)
    requires id != ""
    ensures ShapeOf(line).header == id <==> Matches(ID, id) && Matches(Header(Text(id)), line)
    ensures ShapeOf(line).item == id <==> Matches(ID, id) && Matches(Item(Text(id)), line)
  {
    JobHeaderMatches(line, id);
    NeedsItemMatches(line, id);
  }
}
