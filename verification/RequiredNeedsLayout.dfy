/** Every workflow written in the accepted layout is accepted: rendering and parsing are inverse.
    The layout is the one documented in tools/check_required_needs.py. */
module RequiredNeedsLayout {
  import opened Prelude
  import opened RequiredNeeds
  import opened RequiredNeedsSelfTest
  import opened RequiredNeedsDrop
  import opened RequiredNeedsReading

  predicate IsId(id: string) { id != "" && IdLength(id) == |id| }

  predicate AllIds(ids: seq<string>) { forall i :: 0 <= i < |ids| ==> IsId(ids[i]) }

  function HeaderLine(id: string): Line { "  " + id + ":" }
  function ItemLine(id: string): Line { "      - " + id }

  /** `jobs:`, a header per job, the `required` job, its `needs:` key, an item per entry. */
  function LineAt(jobs: seq<string>, needs: seq<string>, i: nat): Line
    requires i < |jobs| + |needs| + 3
  {
    if i == 0 then "jobs:"
    else if i <= |jobs| then HeaderLine(jobs[i - 1])
    else if i == |jobs| + 1 then HeaderLine(AGGREGATOR)
    else if i == |jobs| + 2 then "    needs:"
    else ItemLine(needs[i - |jobs| - 3])
  }

  function Layout(jobs: seq<string>, needs: seq<string>): (lines: seq<Line>)
    ensures |lines| == |jobs| + |needs| + 3
  {
    seq(|jobs| + |needs| + 3, i requires 0 <= i < |jobs| + |needs| + 3 => LineAt(jobs, needs, i))
  }

  /** The text, with a line end of either kind after every line. */
  function Render(lines: seq<Line>, crlf: nat -> bool): string { Join(RenderedPieces(lines, crlf)) }

  function RenderedPieces(lines: seq<Line>, crlf: nat -> bool): seq<string> {
    seq(|lines|, i requires 0 <= i < |lines| => lines[i] + if crlf(i) then "\r\n" else "\n")
  }

  // ------------------------------------------------------------------
  // Shapes of the lines
  // ------------------------------------------------------------------

  lemma IdChars(id: string)
    requires IsId(id)
    ensures forall i :: 0 <= i < |id| ==> IsIdChar(id[i])
    ensures IsLetter(id[0]) || id[0] == '_'
  {
  }

  lemma IdAlone(id: string, rest: string)
    requires IsId(id) && (rest == "" || !IsIdChar(rest[0]))
    ensures IdLength(id + rest) == |id|
  {
    IdChars(id);
    var s := id + rest;
    assert s[0] == id[0];
    SpanIs(s, IsIdChar, |id|);
  }

  predicate Inner(s: Shape, indent: nat) {
    !s.ignored && !s.scalar && !s.jobsLike && !s.top && !s.tab && s.indent == indent
  }

  /** The first character after the indentation decides most of it. */
  lemma Indented(line: Line, k: nat)
    requires 0 < k < |line| && (forall i :: 0 <= i < k ==> line[i] == ' ')
    requires !IsSpace(line[k]) && line[k] != '#'
    ensures Spaces(line) == k && !Ignored(line) && !TopLevel(line) && !JobsAny(line)
  {
    SpanIs(line, c => c == ' ', k);
    SpanIs(line, IsSpace, k);
    NotQuoted(line, "jobs");
  }

  lemma HeaderShape(id: string)
    requires IsId(id)
    ensures Inner(ShapeOf(HeaderLine(id)), 2) && ShapeOf(HeaderLine(id)).header == id
  {
    var line := HeaderLine(id);
    IdChars(id);
    IdAlone(id, ":");
    assert line[2..] == id + ":" && line[2] == id[0] && line[..2] == "  ";
    assert (id + ":")[|id|] == ':' && (id + ":")[|id| + 1..] == "" && (id + ":")[..|id|] == id;
    Indented(line, 2);
    HeaderNoScalar(line, id);
  }

  lemma HeaderNoScalar(line: Line, id: string)
    requires IsId(id) && |line| == |id| + 3 && line[2..] == id + ":" && Spaces(line) == 2
    ensures !BlockScalar(line)
  {
    IdChars(id);
    var s := id + ":";
    assert s[0] == id[0];
    if StartsWith(s, "- ") {
      StartsAt(s, "- ", 0);
    }
    SpanIs(s, IsKeyChar, |id|);
    assert s[|id| + 1..] == "";
  }

  /** `line` is `text`, said character by character. */
  predicate Reads(line: Line, text: string) { |line| == |text| && forall i :: 0 <= i < |text| ==> line[i] == text[i] }

  lemma KeyIsKey(line: Line)
    requires Reads(line, "    needs:")
    ensures NeedsKey(line) && NeedsAny(line) && BodyKey(line)
  {
    var s := line[4..];
    assert line[..10] == "    needs:" && line[10..] == "" && line[..4] == "    ";
    assert s[..5] == "needs" && s[5..] == ":";
    SpanIs(s, IsIdChar, 5);
  }

  lemma KeyShape(line: Line)
    requires Reads(line, "    needs:")
    ensures var s := ShapeOf(line); Inner(s, 4) && s.bodyKey && s.needsLike && s.needsKey
  {
    KeyIsKey(line);
    Indented(line, 4);
    NeedsKeyNoScalar(line);
  }

  lemma ItemLineShape(id: string)
    requires IsId(id)
    ensures Inner(ShapeOf(ItemLine(id)), 6) && ShapeOf(ItemLine(id)).item == id && !ShapeOf(ItemLine(id)).needsLike
  {
    var line := ItemLine(id);
    IdAlone(id, "");
    assert line[8..] == id && id + "" == id && line[..8] == "      - ";
    assert id[|id|..] == "" && id[..|id|] == id;
    ItemShape(line);
    assert line[..8][6] == '-';
    Indented(line, 6);
  }

  lemma JobsIsKey(line: Line)
    requires Reads(line, "jobs:")
    ensures JobsAny(line) && JobsKey(line)
  {
    assert line[..4] == "jobs" && line[4..] == ":" && line[..5] == "jobs:" && line[5..] == "";
  }

  lemma JobsShape(line: Line)
    requires Reads(line, "jobs:")
    ensures ShapeOf(line).jobsLike && ShapeOf(line).jobsKey
  {
    JobsIsKey(line);
  }

  // ------------------------------------------------------------------
  // Parsing the layout
  // ------------------------------------------------------------------

  /** What the shape of each line of a layout is. */
  predicate LaidAt(s: Shape, jobs: seq<string>, needs: seq<string>, i: nat)
    requires i < |jobs| + |needs| + 3
  {
    if i == 0 then s.jobsLike && s.jobsKey
    else if i <= |jobs| then Inner(s, 2) && s.header == jobs[i - 1]
    else if i == |jobs| + 1 then Inner(s, 2) && s.header == AGGREGATOR
    else if i == |jobs| + 2 then Inner(s, 4) && s.bodyKey && s.needsLike && s.needsKey
    else Inner(s, 6) && s.item == needs[i - |jobs| - 3] && !s.needsLike
  }

  predicate Laid(ss: seq<Shape>, jobs: seq<string>, needs: seq<string>) {
    |ss| == |jobs| + |needs| + 3 && forall i :: 0 <= i < |ss| ==> LaidAt(ss[i], jobs, needs, i)
  }

  lemma AggregatorShape(id: string)
    requires Reads(id, AGGREGATOR)
    ensures Inner(ShapeOf(HeaderLine(id)), 2) && ShapeOf(HeaderLine(id)).header == id
  {
    SpanIs(id, IsIdChar, 8);
    HeaderShape(id);
  }

  lemma LineLaid(line: Line, jobs: seq<string>, needs: seq<string>, i: nat)
    requires AllIds(jobs) && AllIds(needs) && i < |jobs| + |needs| + 3 && line == LineAt(jobs, needs, i)
    ensures LaidAt(ShapeOf(line), jobs, needs, i)
  {
    if i == 0 {
      JobsShape(line);
    } else if i <= |jobs| {
      HeaderShape(jobs[i - 1]);
    } else if i == |jobs| + 1 {
      AggregatorShape(AGGREGATOR);
    } else if i == |jobs| + 2 {
      KeyShape(line);
    } else {
      ItemLineShape(needs[i - |jobs| - 3]);
    }
  }

  lemma LayoutIsLaid(jobs: seq<string>, needs: seq<string>)
    requires AllIds(jobs) && AllIds(needs)
    ensures Laid(Shapes(Layout(jobs, needs)), jobs, needs)
  {
    var lines := Layout(jobs, needs);
    forall i | 0 <= i < |lines| ensures LaidAt(ShapeOf(lines[i]), jobs, needs, i) {
      LineLaid(lines[i], jobs, needs, i);
    }
  }

  predicate InnerAt(s: Shape) { Inner(s, s.indent) }

  lemma LaidSection(ss: seq<Shape>, jobs: seq<string>, needs: seq<string>)
    requires Laid(ss, jobs, needs)
    ensures JobsSection(ss) == Ok((1, |ss|)) && forall i :: 1 <= i < |ss| ==> InnerAt(ss[i])
  {
    forall i | 1 <= i < |ss| ensures InnerAt(ss[i]) {
      assert LaidAt(ss[i], jobs, needs, i);
    }
    assert LaidAt(ss[0], jobs, needs, 0);
    OnlyIndex(ss, LikeJobs, 0, 0);
    assert OnlyAt(ss, 0, LikeJobs);
    assert Indices(ss, LikeJobs, 0) == [0];
  }

  /** The lines numbered as they stand. */
  function Numbering(ss: seq<Shape>, i: nat, end: nat): (ns: seq<Numbered>)
    requires i <= end <= |ss|
    ensures |ns| == end - i && forall k :: 0 <= k < |ns| ==> ns[k] == Numbered(i + k + 1, ss[i + k])
  {
    seq(end - i, k requires 0 <= k < end - i => Numbered(i + k + 1, ss[i + k]))
  }

  lemma {:induction false} AllStructural(ss: seq<Shape>, i: nat, end: nat)
    requires i <= end <= |ss| && forall k :: i <= k < end ==> InnerAt(ss[k])
    ensures Structural(ss, i, end) == Numbering(ss, i, end)
    decreases end - i
  {
    if i < end {
      assert InnerAt(ss[i]);
      AllStructural(ss, i + 1, end);
      NumberingFirst(ss, i, end);
    }
  }

  lemma NumberingFirst(ss: seq<Shape>, i: nat, end: nat)
    requires i < end <= |ss|
    ensures Numbering(ss, i, end) == [Numbered(i + 1, ss[i])] + Numbering(ss, i + 1, end)
  {
  }

  function JobEntries(jobs: seq<string>): seq<Entry> { seq(|jobs|, i requires 0 <= i < |jobs| => Entry(jobs[i], i + 2)) }

  predicate DistinctNames(names: seq<string>) { forall i, j :: 0 <= i < j < |names| ==> names[i] != names[j] }

  predicate Listed(names: seq<string>, name: string) { exists i :: 0 <= i < |names| && names[i] == name }

  /** A table of the given jobs, all with empty bodies. */
  ghost predicate HeadersOnly(t: JobTable, names: seq<string>) {
    && t.jobs == JobEntries(names)
    && (forall name :: name in t.bodies <==> Listed(names, name))
    && (forall name :: name in t.bodies ==> t.bodies[name] == [])
  }

  lemma {:induction false} HeadersParse(ns: seq<Numbered>, names: seq<string>)
    requires |ns| == |names| && DistinctNames(names) && forall i :: 0 <= i < |names| ==> names[i] != ""
    requires forall i :: 0 <= i < |ns| ==> ns[i].no == i + 2 && Inner(ns[i].line, 2) && ns[i].line.header == names[i]
    ensures JobBodiesOf(ns).Ok? && HeadersOnly(JobBodiesOf(ns).value, names)
    decreases |ns|
  {
    if ns != [] {
      var k := |ns| - 1;
      var before, n, front, name := ns[..k], ns[k], names[..k], names[k];
      HeadersParse(before, front);
      JobBodiesPush(before, n);
      assert ns == before + [n];
      var t := JobBodiesOf(before).value;
      forall i | 0 <= i < k ensures names[i] != name {
      }
      assert !Listed(front, name);
      HeaderAdds(t, n, front, name);
      assert names == front + [name];
    }
  }

  lemma HeaderAdds(t: JobTable, n: Numbered, front: seq<string>, name: string)
    requires HeadersOnly(t, front) && !Listed(front, name) && name != ""
    requires n.no == |front| + 2 && Inner(n.line, 2) && n.line.header == name
    ensures AddLine(t, n).Ok? && HeadersOnly(AddLine(t, n).value, front + [name])
  {
    var t1 := AddLine(t, n).value;
    var names := front + [name];
    assert t1.jobs == JobEntries(names);
    forall x ensures x in t1.bodies <==> Listed(names, x) {
      if Listed(front, x) {
        var i :| 0 <= i < |front| && front[i] == x;
        assert names[i] == x;
      }
      if x == name {
        assert names[|front|] == name;
      }
      if Listed(names, x) && x != name {
        var i :| 0 <= i < |names| && names[i] == x;
        assert front[i] == x;
      }
    }
  }

  /** The table with more lines in the body of `last`. */
  function WithBody(t: JobTable, last: string, body: seq<Numbered>): JobTable
    requires last in t.bodies
  {
    t.(bodies := t.bodies[last := t.bodies[last] + body])
  }

  lemma WithNothing(t: JobTable, last: string)
    requires last in t.bodies
    ensures WithBody(t, last, []) == t
  {
    assert t.bodies[last] + [] == t.bodies[last];
    assert t.bodies[last := t.bodies[last]] == t.bodies;
  }

  lemma BodyAdds(t: JobTable, last: string, body: seq<Numbered>, front: seq<Numbered>, n: Numbered)
    requires t.jobs != [] && t.jobs[|t.jobs| - 1].name == last && last in t.bodies
    requires !n.line.tab && n.line.indent >= BODY_INDENT && body == front + [n]
    ensures AddLine(WithBody(t, last, front), n) == Ok(WithBody(t, last, body))
  {
    var t1 := WithBody(t, last, front);
    Associate(t.bodies[last], body, front, n);
    assert t1.bodies[last := t1.bodies[last] + [n]] == WithBody(t, last, body).bodies;
  }

  lemma Associate(ns: seq<Numbered>, body: seq<Numbered>, front: seq<Numbered>, n: Numbered)
    requires body == front + [n]
    ensures (ns + front) + [n] == ns + body
  {
  }

  lemma BodyStep(ns: seq<Numbered>, t: JobTable, body: seq<Numbered>, front: seq<Numbered>, n: Numbered, last: string)
    requires t.jobs != [] && t.jobs[|t.jobs| - 1].name == last && last in t.bodies
    requires !n.line.tab && n.line.indent >= BODY_INDENT
    requires JobBodiesOf(ns + front) == Ok(WithBody(t, last, front)) && body == front + [n]
    ensures JobBodiesOf(ns + body) == Ok(WithBody(t, last, body))
  {
    Associate(ns, body, front, n);
    JobBodiesPush(ns + front, n);
    BodyAdds(t, last, body, front, n);
  }

  lemma Snoc(body: seq<Numbered>) returns (front: seq<Numbered>, n: Numbered)
    requires body != []
    ensures body == front + [n] && |front| < |body| && n == body[|body| - 1] && forall i :: 0 <= i < |front| ==> front[i] == body[i]
  {
    front, n := body[..|body| - 1], body[|body| - 1];
  }

  lemma NoBodyParses(ns: seq<Numbered>, t: JobTable, last: string)
    requires JobBodiesOf(ns) == Ok(t) && last in t.bodies
    ensures JobBodiesOf(ns + []) == Ok(WithBody(t, last, []))
  {
    assert ns + [] == ns;
    WithNothing(t, last);
  }

  /** Lines at body indentation all go to the last job. */
  lemma {:induction false} BodyParses(ns: seq<Numbered>, t: JobTable, body: seq<Numbered>, last: string)
    requires JobBodiesOf(ns) == Ok(t) && t.jobs != [] && t.jobs[|t.jobs| - 1].name == last && last in t.bodies
    requires forall i :: 0 <= i < |body| ==> !body[i].line.tab && body[i].line.indent >= BODY_INDENT
    ensures JobBodiesOf(ns + body) == Ok(WithBody(t, last, body))
    decreases |body|
  {
    if body == [] {
      NoBodyParses(ns, t, last);
    } else {
      var front, n := Snoc(body);
      BodyParses(ns, t, front, last);
      BodyStep(ns, t, body, front, n, last);
    }
  }

  function NeedEntries(needs: seq<string>, first: nat): seq<Entry> {
    seq(|needs|, i requires 0 <= i < |needs| => Entry(needs[i], first + i))
  }

  lemma {:induction false} ItemsParse(rest: seq<Numbered>, needs: seq<string>, first: nat)
    requires |rest| == |needs| && forall i :: 0 <= i < |needs| ==> needs[i] != ""
    requires forall i :: 0 <= i < |rest| ==> rest[i].no == first + i && Inner(rest[i].line, 6) && rest[i].line.item == needs[i]
    ensures ItemsFrom(rest) == Ok(NeedEntries(needs, first))
    decreases |rest|
  {
    if rest != [] {
      ItemsParse(rest[1..], needs[1..], first + 1);
      assert NeedEntries(needs, first) == [Entry(needs[0], first)] + NeedEntries(needs[1..], first + 1);
    }
  }

  lemma {:induction false} NoBodyError(body: seq<Numbered>)
    requires forall i :: 0 <= i < |body| ==> InnerAt(body[i].line) && (body[i].line.indent == BODY_INDENT ==> body[i].line.bodyKey)
    ensures BodyError(body).Ok?
  {
    if body != [] {
      NoBodyError(body[1..]);
    }
  }

  /** The workflow a layout stands for. */
  function Written(jobs: seq<string>, needs: seq<string>): Workflow {
    Workflow(JobEntries(jobs + [AGGREGATOR]), NeedEntries(needs, |jobs| + 4))
  }

  lemma LaidBody(ss: seq<Shape>, jobs: seq<string>, needs: seq<string>, body: seq<Numbered>)
    requires Laid(ss, jobs, needs) && AllIds(needs) && body == Numbering(ss, |jobs| + 2, |ss|)
    ensures NeedsEntries(body) == Ok(NeedEntries(needs, |jobs| + 4))
  {
    forall i | 0 <= i < |body|
      ensures LaidAt(body[i].line, jobs, needs, |jobs| + 2 + i) && (LikeNeeds(Texts(body)[i]) <==> i == 0)
    {
      assert LaidAt(ss[|jobs| + 2 + i], jobs, needs, |jobs| + 2 + i);
    }
    NoBodyError(body);
    NeedsAre(body, 0);
    ItemsParse(body[1..], needs, |jobs| + 4);
  }

  lemma LaidTable(ss: seq<Shape>, jobs: seq<string>, needs: seq<string>, body: seq<Numbered>)
    requires Laid(ss, jobs, needs) && AllIds(jobs) && DistinctNames(jobs + [AGGREGATOR])
    requires body == Numbering(ss, |jobs| + 2, |ss|)
    ensures var r := JobBodiesOf(Numbering(ss, 1, |ss|));
      r.Ok? && r.value.jobs == JobEntries(jobs + [AGGREGATOR]) && AGGREGATOR in r.value.bodies && r.value.bodies[AGGREGATOR] == body
  {
    var names := jobs + [AGGREGATOR];
    var heads := Numbering(ss, 1, |jobs| + 2);
    forall i | 0 <= i < |heads| ensures heads[i].no == i + 2 && Inner(heads[i].line, 2) && heads[i].line.header == names[i] {
      assert LaidAt(ss[i + 1], jobs, needs, i + 1);
    }
    HeadersParse(heads, names);
    assert names[|jobs|] == AGGREGATOR;
    assert Listed(names, AGGREGATOR);
    assert Numbering(ss, 1, |ss|) == heads + body;
    forall i | 0 <= i < |body| ensures InnerAt(body[i].line) && body[i].line.indent >= BODY_INDENT {
      assert LaidAt(ss[|jobs| + 2 + i], jobs, needs, |jobs| + 2 + i);
    }
    BodyParses(heads, JobBodiesOf(heads).value, body, AGGREGATOR);
    assert [] + body == body;
  }

  lemma LaidParses(ss: seq<Shape>, jobs: seq<string>, needs: seq<string>)
    requires Laid(ss, jobs, needs) && AllIds(jobs) && AllIds(needs) && DistinctNames(jobs + [AGGREGATOR])
    ensures ParseLines(ss) == Ok(Written(jobs, needs))
  {
    LaidSection(ss, jobs, needs);
    AllStructural(ss, 1, |ss|);
    var body := Numbering(ss, |jobs| + 2, |ss|);
    LaidTable(ss, jobs, needs, body);
    LaidBody(ss, jobs, needs, body);
    ParseIs(ss, 1, |ss|, Numbering(ss, 1, |ss|), JobBodiesOf(Numbering(ss, 1, |ss|)).value, NeedEntries(needs, |jobs| + 4));
  }

  // ------------------------------------------------------------------
  // From text
  // ------------------------------------------------------------------

  /** The lines of a text are what stands between its line ends. */
  lemma RenderedLines(lines: seq<Line>, crlf: nat -> bool)
    requires forall i :: 0 <= i < |lines| ==> Plain(lines[i])
    ensures Lines(Render(lines, crlf)) == Ok(lines)
  {
    assert PiecesOfLines(RenderedPieces(lines, crlf), lines);
    LinesExactly(Render(lines, crlf), lines);
  }

  lemma LayoutIsPlain(jobs: seq<string>, needs: seq<string>, i: nat)
    requires AllIds(jobs) && AllIds(needs) && i < |jobs| + |needs| + 3
    ensures Plain(LineAt(jobs, needs, i))
  {
    if 1 <= i <= |jobs| {
      IdChars(jobs[i - 1]);
    } else if i >= |jobs| + 3 {
      IdChars(needs[i - |jobs| - 3]);
    }
  }

  /** Every workflow written in the layout, whatever its jobs and its `needs`, parses to exactly those. */
  lemma LayoutParses(jobs: seq<string>, needs: seq<string>, crlf: nat -> bool)
    requires AllIds(jobs) && AllIds(needs) && DistinctNames(jobs + [AGGREGATOR])
    ensures Parse(Render(Layout(jobs, needs), crlf)) == Ok(Written(jobs, needs))
  {
    var lines := Layout(jobs, needs);
    forall i | 0 <= i < |lines| ensures Plain(lines[i]) {
      LayoutIsPlain(jobs, needs, i);
    }
    RenderedLines(lines, crlf);
    LayoutIsLaid(jobs, needs);
    LaidParses(Shapes(lines), jobs, needs);
  }

  lemma NamesOfEntries(entries: seq<Entry>, names: seq<string>)
    requires |entries| == |names| && forall i :: 0 <= i < |names| ==> entries[i].name == names[i]
    ensures Names(entries) == set name | name in names
    ensures Distinct(entries) <==> DistinctNames(names)
  {
    forall name | name in names ensures name in Names(entries) {
      var i :| 0 <= i < |names| && names[i] == name;
      assert entries[i] in entries && entries[i].name == name;
    }
    forall e | e in entries ensures e.name in names {
      var i :| 0 <= i < |entries| && entries[i] == e;
      assert names[i] == e.name;
    }
    if Distinct(entries) {
      forall i, j | 0 <= i < j < |names| ensures names[i] != names[j] {
        assert entries[i].name != entries[j].name;
      }
    }
  }

  /** A text in the layout passes the check exactly when it has another job and its `needs` lists each of them once
      and nothing else. */
  lemma LayoutPassesExactly(jobs: seq<string>, needs: seq<string>, crlf: nat -> bool)
    requires AllIds(jobs) && AllIds(needs) && DistinctNames(jobs + [AGGREGATOR])
    ensures FindProblemsOf(Render(Layout(jobs, needs), crlf)) == Ok([]) <==>
      jobs != [] && DistinctNames(needs) && (set n | n in needs) == (set j | j in jobs)
  {
    var w := Written(jobs, needs);
    LayoutParses(jobs, needs, crlf);
    FoundIs(Render(Layout(jobs, needs), crlf), w);
    NoProblemsExactly(w);
    NamesOfEntries(w.needs, needs);
    NamesOfEntries(w.jobs, jobs + [AGGREGATOR]);
    OthersAre(jobs);
  }

  lemma OthersAre(jobs: seq<string>)
    requires DistinctNames(jobs + [AGGREGATOR])
    ensures (set name | name in jobs + [AGGREGATOR]) - {AGGREGATOR} == set j | j in jobs
    ensures jobs == [] <==> (set j | j in jobs) == {}
  {
    var all := jobs + [AGGREGATOR];
    forall j | j in jobs ensures j != AGGREGATOR {
      var i :| 0 <= i < |jobs| && jobs[i] == j;
      assert all[i] != all[|jobs|];
    }
    var mine := set j | j in jobs;
    assert jobs != [] ==> jobs[0] in mine;
    assert jobs == [] ==> mine == {};
  }
}
