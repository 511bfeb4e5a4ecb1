/** LIKE escaping: what a prefix query built from an escaped string matches.
    Models `_escape_like` in gubbi/storage/repositories/base.py, as used with ESCAPE '!'. */
module Like {

  const ESCAPE: char := '!'

  predicate Special(c: char) { c == ESCAPE || c == '%' || c == '_' }

  /** `s.replace(c, r)` for a single character. */
  function Replace(s: string, c: char, r: string): string {
    if s == "" then "" else if s[0] == c then r + Replace(s[1..], c, r) else [s[0]] + Replace(s[1..], c, r)
  }

  function EscapeLike(s: string): string {
    Replace(Replace(Replace(s, '!', "!!"), '%', "!%"), '_', "!_")
  }

  /** The same, one character at a time: every special character gets an escape character in front. */
  function EscapeEach(s: string): string {
    if s == "" then "" else if Special(s[0]) then [ESCAPE, s[0]] + EscapeEach(s[1..]) else [s[0]] + EscapeEach(s[1..])
  }

  /** The text an escaped pattern stands for. */
  function Unescape(p: string): string {
    if p == "" then ""
    else if p[0] == ESCAPE && |p| >= 2 then [p[1]] + Unescape(p[2..])
    else [p[0]] + Unescape(p[1..])
  }

  /** `text LIKE pattern ESCAPE '!'`; a pattern that ends inside an escape matches nothing. */
  predicate Matches(text: string, pattern: string)
    decreases |text| + |pattern|
  {
    if pattern == "" then text == ""
    else if pattern[0] == ESCAPE then |pattern| >= 2 && text != "" && text[0] == pattern[1] && Matches(text[1..], pattern[2..])
    else if pattern[0] == '%' then Matches(text, pattern[1..]) || (text != "" && Matches(text[1..], pattern))
    else if pattern[0] == '_' then text != "" && Matches(text[1..], pattern[1..])
    else text != "" && text[0] == pattern[0] && Matches(text[1..], pattern[1..])
  }

  /** No escape character is left without the character it escapes. */
  predicate WellFormed(pattern: string) {
    if pattern == "" then true
    else if pattern[0] == ESCAPE then |pattern| >= 2 && WellFormed(pattern[2..])
    else WellFormed(pattern[1..])
  }

  lemma {:induction false} ReplaceAppend(a: string, b: string, c: char, r: string)
    ensures Replace(a + b, c, r) == Replace(a, c, r) + Replace(b, c, r)
  {
    if a == "" {
      assert a + b == b;
    } else {
      assert (a + b)[1..] == a[1..] + b;
      ReplaceAppend(a[1..], b, c, r);
      var head := if a[0] == c then r else [a[0]];
      var mine, theirs := Replace(a[1..], c, r), Replace(b, c, r);
      assert Replace(a + b, c, r) == head + Replace(a[1..] + b, c, r);
      assert head + (mine + theirs) == (head + mine) + theirs;
    }
  }

  lemma ReplaceOne(x: char, c: char, r: string)
    ensures Replace([x], c, r) == if x == c then r else [x]
  {
    assert [x][1..] == "";
    assert r + "" == r;
  }

  lemma ReplaceTwo(x: char, y: char, c: char, r: string)
    requires x != c
    ensures Replace([x, y], c, r) == [x] + if y == c then r else [y]
  {
    assert [x, y][1..] == [y];
    ReplaceOne(y, c, r);
  }

  /** What the three replacements make of the first character. */
  lemma HeadEscapes(x: char, rest: string)
    ensures EscapeLike([x] + rest) == (if Special(x) then [ESCAPE, x] else [x]) + EscapeLike(rest)
  {
    var head1 := if x == '!' then "!!" else [x];
    var head2 := if x == '%' then "!%" else head1;
    var head3 := if x == '_' then "!_" else head2;
    var rest1 := Replace(rest, '!', "!!");
    var rest2 := Replace(rest1, '%', "!%");
    ReplaceAppend([x], rest, '!', "!!");
    ReplaceOne(x, '!', "!!");
    ReplaceAppend(head1, rest1, '%', "!%");
    HeadStep(head1, x, '%', "!%");
    ReplaceAppend(head2, rest2, '_', "!_");
    HeadStep(head2, x, '_', "!_");
  }

  lemma HeadStep(head: string, x: char, c: char, r: string)
    requires c != '!' && (head == [x] || (x != c && |head| == 2 && head == ['!', x]))
    ensures Replace(head, c, r) == if x == c then r else head
  {
    if head == [x] {
      ReplaceOne(x, c, r);
    } else {
      ReplaceTwo('!', x, c, r);
    }
  }

  /** The order of the replacements does not matter to the outcome: no escape is escaped again. */
  lemma {:induction false} ReplacementsEscapeEach(s: string)
    ensures EscapeLike(s) == EscapeEach(s)
  {
    if s != "" {
      HeadEscapes(s[0], s[1..]);
      assert s == [s[0]] + s[1..];
      ReplacementsEscapeEach(s[1..]);
    }
  }

  lemma {:induction false} EscapeEachUndone(s: string)
    ensures Unescape(EscapeEach(s)) == s
  {
    if s != "" {
      EscapeEachUndone(s[1..]);
      var e := EscapeEach(s);
      if Special(s[0]) {
        assert e[2..] == EscapeEach(s[1..]);
      } else {
        assert e[1..] == EscapeEach(s[1..]);
      }
    }
  }

  /** Escaping can be undone, so different strings have different patterns. */
  lemma EscapeUndone(s: string)
    ensures Unescape(EscapeLike(s)) == s
  {
    ReplacementsEscapeEach(s);
    EscapeEachUndone(s);
  }

  lemma {:induction false} AnyTail(text: string)
    ensures Matches(text, "%")
  {
    assert "%"[1..] == "";
    if text != "" {
      AnyTail(text[1..]);
    }
  }

  lemma {:induction false} EscapeEachMatches(text: string, p: string, tail: string)
    ensures Matches(text, EscapeEach(p) + tail) <==> p <= text && Matches(text[|p|..], tail)
    ensures WellFormed(EscapeEach(p) + tail) <==> WellFormed(tail)
    decreases |p|
  {
    var pattern := EscapeEach(p) + tail;
    if p == "" {
      assert pattern == tail && text[0..] == text;
    } else {
      var rest := EscapeEach(p[1..]) + tail;
      if Special(p[0]) {
        assert pattern[0] == ESCAPE && pattern[1] == p[0] && pattern[2..] == rest;
      } else {
        assert pattern[0] == p[0] && pattern[1..] == rest;
      }
      EscapeEachMatches(if text == "" then "" else text[1..], p[1..], tail);
      if text != "" {
        assert p <= text <==> p[0] == text[0] && p[1..] <= text[1..];
        assert |p[1..]| <= |text[1..]| ==> text[1..][|p[1..]|..] == text[|p|..];
      }
    }
  }

  /** A prefix query matches exactly the texts that start with the string it was built from. */
  lemma PrefixQueryMeansPrefix(text: string, p: string)
    ensures Matches(text, EscapeLike(p) + "%") <==> p <= text
    ensures WellFormed(EscapeLike(p) + "%")
  {
    ReplacementsEscapeEach(p);
    EscapeEachMatches(text, p, "%");
    if p <= text {
      AnyTail(text[|p|..]);
    }
    assert "%"[1..] == "";
  }

  /** Without the wildcard the escaped string matches itself and nothing else. */
  lemma EscapedMatchesItself(text: string, p: string)
    ensures Matches(text, EscapeLike(p)) <==> text == p
  {
    ReplacementsEscapeEach(p);
    EscapeEachMatches(text, p, "");
    assert EscapeEach(p) + "" == EscapeEach(p);
    if p <= text && text[|p|..] == "" {
      assert text == text[..|p|] + text[|p|..];
    }
  }
}
