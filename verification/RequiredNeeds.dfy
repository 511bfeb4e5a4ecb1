/** The checker that fails unless a workflow's `required` job needs every other job.
    Models tools/check_required_needs.py: its line grammar, its parser and what it reports. */
module RequiredNeeds {
  import opened Prelude

  const AGGREGATOR := "required"
  const JOB_INDENT: nat := 2
  const BODY_INDENT: nat := 4

  type Line = string

  datatype LayoutError =
    | ForeignBreak
    | TabInIndentation(line: nat)
    | NoJobsKey
    | SecondJobsKey(line: nat)
    | JobsNotPlain(line: nat)
    | NotTopLevelKey(line: nat)
    | NotJobHeader(line: nat)
    | JobDefinedTwice(line: nat)
    | NotBodyKey(line: nat)
    | NoNeedsKey
    | SecondNeedsKey(line: nat)
    | NeedsNotBlockList(line: nat)
    | NotNeedsItem(line: nat)
    | NoRequiredJob

  datatype Result<+T> = Ok(value: T) | Err(error: LayoutError) {
    predicate IsFailure() { Err? }
    function PropagateFailure<U>(): Result<U>
      requires Err?
    {
      Err(error)
    }
    function Extract(): T
      requires Ok?
    {
      value
    }
  }

  // ------------------------------------------------------------------
  // Characters and line shapes
  // ------------------------------------------------------------------

  predicate IsBlank(c: char) { c == ' ' || c == '\t' }
  predicate IsLetter(c: char) { 'a' <= c <= 'z' || 'A' <= c <= 'Z' }
  predicate IsIdChar(c: char) { IsLetter(c) || IsDigit(c) || c == '_' || c == '-' }
  predicate IsKeyChar(c: char) { IsIdChar(c) || c == '.' }

  function Spaces(line: Line): nat { Span(line, c => c == ' ') }

  predicate StartsWith(s: string, prefix: string) { |prefix| <= |s| && s[..|prefix|] == prefix }

  predicate AllSpace(line: Line) { Span(line, IsSpace) == |line| }

  predicate CommentLine(line: Line) {
    var n := Span(line, IsSpace);
    n < |line| && line[n] == '#'
  }

  predicate Ignored(line: Line) { AllSpace(line) || CommentLine(line) }

  /** `(?:[ \t]+#.*)?[ \t]*$` */
  predicate Trailer(s: string) {
    var n := Span(s, IsBlank);
    n == |s| || (n > 0 && s[n] == '#')
  }

  /** The length of an unquoted id at the start of `s`, 0 when there is none. */
  function IdLength(s: string): (n: nat)
    ensures n <= |s|
  {
    if s != [] && (IsLetter(s[0]) || s[0] == '_') then Span(s, IsIdChar) else 0
  }

  /** An id followed by a colon; the length of the id, 0 when the shape is wrong. */
  function IdColon(s: string): (n: nat)
    ensures n > 0 ==> n < |s| && s[n] == ':'
  {
    var n := IdLength(s);
    if n < |s| && s[n] == ':' then n else 0
  }

  /** `word`, possibly quoted, then blanks and a colon. */
  predicate QuotedKey(s: string, word: string) {
    var s1 := if s != [] && (s[0] == '"' || s[0] == '\'') then s[1..] else s;
    StartsWith(s1, word) &&
      var s2 := s1[|word|..];
      var s3 := if s2 != [] && (s2[0] == '"' || s2[0] == '\'') then s2[1..] else s2;
      var n := Span(s3, IsBlank);
      n < |s3| && s3[n] == ':'
  }

  predicate JobsKey(line: Line) { StartsWith(line, "jobs:") && Trailer(line[5..]) }
  predicate JobsAny(line: Line) { QuotedKey(line, "jobs") }
  predicate TopLevel(line: Line) { line != [] && !IsSpace(line[0]) && line[0] != '#' }
  predicate TopLevelKey(line: Line) { IdColon(line) > 0 }

  /** The id of a job header, empty when the line is none. */
  function JobHeader(line: Line): string {
    if StartsWith(line, "  ") && IdColon(line[2..]) > 0 && Trailer(line[2..][IdColon(line[2..]) + 1..])
    then line[2..][..IdColon(line[2..])] else ""
  }

  predicate BodyKey(line: Line) { StartsWith(line, "    ") && IdColon(line[4..]) > 0 }
  predicate NeedsAny(line: Line) { StartsWith(line, "    ") && QuotedKey(line[4..], "needs") }
  predicate NeedsKey(line: Line) { StartsWith(line, "    needs:") && Trailer(line[10..]) }

  /** The id of a `needs` item, empty when the line is none. */
  function NeedsItem(line: Line): string {
    if StartsWith(line, "      - ") && Trailer(line[8..][IdLength(line[8..])..]) then line[8..][..IdLength(line[8..])] else ""
  }

  /** After `key:`, a block scalar's indicator and nothing else. */
  predicate ScalarIndicator(s: string) {
    var n := Span(s, IsBlank);
    n < |s| && (s[n] == '|' || s[n] == '>') &&
      var s1 := DropIf(s[n + 1..], c => c == '+' || c == '-');
      var s2 := DropIf(s1, IsDigit);
      Trailer(DropIf(s2, c => c == '+' || c == '-'))
  }

  function DropIf(s: string, p: char -> bool): string { if s != [] && p(s[0]) then s[1..] else s }

  predicate BlockScalar(line: Line) {
    var s := line[Spaces(line)..];
    var s1 := if StartsWith(s, "- ") then s[1..][Spaces(s[1..])..] else s;
    var n := Span(s1, IsKeyChar);
    0 < n < |s1| && s1[n] == ':' && ScalarIndicator(s1[n + 1..])
  }

  /** Everything the parser asks about one line. */
  datatype Shape = Shape(
    blank: bool, ignored: bool, indent: nat, tab: bool, scalar: bool,
    jobsLike: bool, jobsKey: bool, top: bool, topKey: bool,
    header: string, bodyKey: bool, needsLike: bool, needsKey: bool, item: string)

  function ShapeOf(line: Line): Shape {
    var k := Spaces(line);
    Shape(AllSpace(line), Ignored(line), k, k < |line| && line[k] == '\t', BlockScalar(line),
          JobsAny(line), JobsKey(line), TopLevel(line), TopLevelKey(line),
          JobHeader(line), BodyKey(line), NeedsAny(line), NeedsKey(line), NeedsItem(line))
  }

  function Shapes(lines: seq<Line>): seq<Shape> { seq(|lines|, i requires 0 <= i < |lines| => ShapeOf(lines[i])) }

  // ------------------------------------------------------------------
  // Lines of a source text
  // ------------------------------------------------------------------

  /** A character, other than the end of `\n` and `\r\n`, that Python would split lines on. */
  predicate ForeignAt(source: string, i: nat)
    requires i < |source|
  {
    var c := source[i];
    || (c == '\r' && !(i + 1 < |source| && source[i + 1] == '\n'))
    || c == '\U{b}' || c == '\U{c}' || c == '\U{1c}' || c == '\U{1d}' || c == '\U{1e}' || c == '\U{85}' || c == '\U{2028}' || c == '\U{2029}'
  }

  predicate HasForeign(source: string) { exists i :: 0 <= i < |source| && ForeignAt(source, i) }

  /** `source.splitlines(keepends=True)` for a source without foreign breaks. */
  function Pieces(source: string): seq<string> {
    if source == [] then []
    else
      var n := Span(source, c => c != '\n');
      if n == |source| then [source] else [source[..n + 1]] + Pieces(source[n + 1..])
  }

  /** The piece without its line end. */
  function Chomp(piece: string): Line {
    if piece != [] && piece[|piece| - 1] == '\n' then
      var s := piece[..|piece| - 1];
      if s != [] && s[|s| - 1] == '\r' then s[..|s| - 1] else s
    else piece
  }

  function Chomped(pieces: seq<string>): seq<Line> { seq(|pieces|, i requires 0 <= i < |pieces| => Chomp(pieces[i])) }

  function Join(pieces: seq<string>): string { if pieces == [] then "" else pieces[0] + Join(pieces[1..]) }

  function Lines(source: string): Result<seq<Line>> {
    if HasForeign(source) then Err(ForeignBreak) else Ok(Chomped(Pieces(source)))
  }

  // ------------------------------------------------------------------
  // The parser, as functions
  // ------------------------------------------------------------------

  datatype Numbered = Numbered(no: nat, line: Shape)
  datatype Entry = Entry(name: string, line: nat)
  datatype Workflow = Workflow(jobs: seq<Entry>, needs: seq<Entry>)
  datatype JobTable = JobTable(jobs: seq<Entry>, bodies: map<string, seq<Numbered>>)

  function Indent(n: Numbered): Result<nat> {
    if n.line.tab then Err(TabInIndentation(n.no)) else Ok(n.line.indent)
  }

  /** The first line at or after `i` that does not belong to the body of a block scalar at `indent`. */
  function SkipBody(lines: seq<Shape>, i: nat, end: nat, indent: nat): (j: nat)
    requires i <= end <= |lines|
    ensures i <= j <= end
    decreases end - i
  {
    if i < end && (lines[i].blank || lines[i].indent > indent) then SkipBody(lines, i + 1, end, indent) else i
  }

  function AfterLine(lines: seq<Shape>, i: nat, end: nat): (j: nat)
    requires i < end <= |lines|
    ensures i < j <= end
  {
    if lines[i].scalar then SkipBody(lines, i + 1, end, lines[i].indent) else i + 1
  }

  function Structural(lines: seq<Shape>, i: nat, end: nat): seq<Numbered>
    requires i <= end <= |lines|
    decreases end - i
  {
    if i == end then []
    else if lines[i].ignored then Structural(lines, i + 1, end)
    else [Numbered(i + 1, lines[i])] + Structural(lines, AfterLine(lines, i, end), end)
  }

  predicate LikeJobs(line: Shape) { line.jobsLike }
  predicate LikeNeeds(line: Shape) { line.needsLike }
  predicate Top(line: Shape) { line.top }

  /** The indices from `i` on of the lines that satisfy `p`. */
  function Indices(lines: seq<Shape>, p: Shape -> bool, offset: nat): seq<nat> {
    if lines == [] then []
    else if p(lines[0]) then [offset] + Indices(lines[1..], p, offset + 1)
    else Indices(lines[1..], p, offset + 1)
  }

  function FirstFrom(lines: seq<Shape>, i: nat, p: Shape -> bool): (j: nat)
    requires i <= |lines|
    ensures i <= j <= |lines|
    ensures j < |lines| ==> p(lines[j])
    ensures forall k :: i <= k < j ==> !p(lines[k])
    decreases |lines| - i
  {
    if i < |lines| && !p(lines[i]) then FirstFrom(lines, i + 1, p) else i
  }

  lemma {:induction false} IndicesInRange(lines: seq<Shape>, p: Shape -> bool, offset: nat)
    ensures forall k :: k in Indices(lines, p, offset) ==> offset <= k < offset + |lines| && p(lines[k - offset])
  {
    if lines != [] {
      IndicesInRange(lines[1..], p, offset + 1);
      var later := Indices(lines[1..], p, offset + 1);
      forall i | 0 <= i < |later| ensures offset < later[i] < offset + |lines| && p(lines[later[i] - offset]) {
        assert later[i] in later;
        assert lines[1..][later[i] - (offset + 1)] == lines[later[i] - offset];
      }
    }
  }

  function JobsSection(lines: seq<Shape>): (r: Result<(nat, nat)>)
    ensures r.Ok? ==> 0 < r.value.0 <= r.value.1 <= |lines|
  {
    var keys := Indices(lines, LikeJobs, 0);
    IndicesInRange(lines, LikeJobs, 0);
    if keys == [] then Err(NoJobsKey)
    else if |keys| > 1 then Err(SecondJobsKey(keys[1] + 1))
    else
      assert keys[0] in keys;
      if !lines[keys[0]].jobsKey then Err(JobsNotPlain(keys[0] + 1))
      else
        var end := FirstFrom(lines, keys[0] + 1, Top);
        if end < |lines| && !lines[end].topKey then Err(NotTopLevelKey(end + 1))
        else Ok((keys[0] + 1, end))
  }

  /** One structural line of the `jobs:` section. */
  function AddLine(table: JobTable, n: Numbered): Result<JobTable> {
    var indent :- Indent(n);
    if indent >= BODY_INDENT && table.jobs != [] then
      var name := table.jobs[|table.jobs| - 1].name;
      Ok(table.(bodies := table.bodies[name := if name in table.bodies then table.bodies[name] + [n] else [n]]))
    else
      var name := if indent == JOB_INDENT then n.line.header else "";
      if name == "" then Err(NotJobHeader(n.no))
      else if name in table.bodies then Err(JobDefinedTwice(n.no))
      else Ok(JobTable(table.jobs + [Entry(name, n.no)], table.bodies[name := []]))
  }

  function JobBodiesOf(ns: seq<Numbered>): Result<JobTable> {
    if ns == [] then Ok(JobTable([], map[]))
    else
      var table :- JobBodiesOf(ns[..|ns| - 1]);
      AddLine(table, ns[|ns| - 1])
  }

  function JobBodies(lines: seq<Shape>): Result<JobTable> {
    var section :- JobsSection(lines);
    JobBodiesOf(Structural(lines, section.0, section.1))
  }

  /** None when every line at body indentation is an unquoted key. */
  function BodyError(body: seq<Numbered>): Result<()> {
    if body == [] then Ok(())
    else
      var indent :- Indent(body[0]);
      if indent == BODY_INDENT && !body[0].line.bodyKey then Err(NotBodyKey(body[0].no)) else BodyError(body[1..])
  }

  function Texts(body: seq<Numbered>): seq<Shape> { seq(|body|, i requires 0 <= i < |body| => body[i].line) }

  /** What a line is to the `needs` block: the name of an item, or `Ok(None)` where the block ends. */
  function ItemAt(n: Numbered): Result<Option<string>> {
    var indent :- Indent(n);
    if indent <= BODY_INDENT then Ok(None)
    else if n.line.item == "" then Err(NotNeedsItem(n.no))
    else Ok(Some(n.line.item))
  }

  /** The items up to the end of the block. */
  function ItemsFrom(body: seq<Numbered>): Result<seq<Entry>> {
    if body == [] then Ok([])
    else
      var name :- ItemAt(body[0]);
      if name.None? then Ok([])
      else
        var rest :- ItemsFrom(body[1..]);
        Ok([Entry(name.value, body[0].no)] + rest)
  }

  function NeedsEntries(body: seq<Numbered>): Result<seq<Entry>> {
    var _ :- BodyError(body);
    var keys := Indices(Texts(body), LikeNeeds, 0);
    IndicesInRange(Texts(body), LikeNeeds, 0);
    if keys == [] then Err(NoNeedsKey)
    else
      assert keys[0] in keys;
      if |keys| > 1 then
        assert keys[1] in keys;
        Err(SecondNeedsKey(body[keys[1]].no))
      else if !body[keys[0]].line.needsKey then Err(NeedsNotBlockList(body[keys[0]].no))
      else ItemsFrom(body[keys[0] + 1..])
  }

  function ParseLines(lines: seq<Shape>): Result<Workflow> {
    var table :- JobBodies(lines);
    if AGGREGATOR !in table.bodies then Err(NoRequiredJob)
    else
      var needs :- NeedsEntries(table.bodies[AGGREGATOR]);
      Ok(Workflow(table.jobs, needs))
  }

  function Parse(source: string): Result<Workflow> {
    var lines :- Lines(source);
    ParseLines(Shapes(lines))
  }

  // ------------------------------------------------------------------
  // What is reported
  // ------------------------------------------------------------------

  datatype Problem =
    | Missing(line: nat, name: string)
    | ListsItself(line: nat)
    | UnknownJob(line: nat, name: string)
    | ListedTwice(line: nat, name: string)
    | NothingToAggregate

  function Names(entries: seq<Entry>): set<string> { set e | e in entries :: e.name }

  function Others(jobs: seq<Entry>): set<string> { Names(jobs) - {AGGREGATOR} }

  /** The jobs missing from `listed`, in file order. */
  function MissingFrom(jobs: seq<Entry>, listed: set<string>): seq<Problem> {
    if jobs == [] then []
    else if jobs[0].name != AGGREGATOR && jobs[0].name !in listed
    then [Missing(jobs[0].line, jobs[0].name)] + MissingFrom(jobs[1..], listed)
    else MissingFrom(jobs[1..], listed)
  }

  function EntryProblems(e: Entry, others: set<string>, seen: set<string>): seq<Problem> {
    (if e.name == AGGREGATOR then [ListsItself(e.line)] else if e.name !in others then [UnknownJob(e.line, e.name)] else [])
    + if e.name in seen then [ListedTwice(e.line, e.name)] else []
  }

  function NeedsProblems(needs: seq<Entry>, others: set<string>): seq<Problem> {
    if needs == [] then []
    else
      var before := needs[..|needs| - 1];
      NeedsProblems(before, others) + EntryProblems(needs[|needs| - 1], others, Names(before))
  }

  function Problems(w: Workflow): seq<Problem> {
    MissingFrom(w.jobs, Names(w.needs)) + NeedsProblems(w.needs, Others(w.jobs))
    + if Others(w.jobs) == {} then [NothingToAggregate] else []
  }

  function FindProblemsOf(source: string): Result<seq<Problem>> {
    var w :- Parse(source);
    Ok(Problems(w))
  }

  predicate Distinct(entries: seq<Entry>) {
    forall i, j :: 0 <= i < j < |entries| ==> entries[i].name != entries[j].name
  }

  lemma {:induction false} NoneMissing(jobs: seq<Entry>, listed: set<string>)
    ensures MissingFrom(jobs, listed) == [] <==> Others(jobs) <= listed
  {
    if jobs != [] {
      NoneMissing(jobs[1..], listed);
      assert Names(jobs) == {jobs[0].name} + Names(jobs[1..]) by {
        assert jobs == [jobs[0]] + jobs[1..];
      }
    }
  }

  lemma DistinctPush(before: seq<Entry>, last: Entry)
    ensures Distinct(before + [last]) <==> Distinct(before) && last.name !in Names(before)
    ensures Names(before + [last]) == Names(before) + {last.name}
  {
    var all := before + [last];
    assert forall i :: 0 <= i < |before| ==> all[i] == before[i] && before[i] in before;
    if Distinct(all) {
      forall i, j | 0 <= i < j < |before| ensures before[i].name != before[j].name {
        assert all[i].name != all[j].name;
      }
      forall e | e in before ensures e.name != last.name {
        var i :| 0 <= i < |before| && before[i] == e;
        assert all[i].name != all[|before|].name;
      }
    }
  }

  lemma {:induction false} NeedsWellFormed(needs: seq<Entry>, others: set<string>)
    requires AGGREGATOR !in others
    ensures NeedsProblems(needs, others) == [] <==> Names(needs) <= others && Distinct(needs)
  {
    if needs != [] {
      var before, last := needs[..|needs| - 1], needs[|needs| - 1];
      NeedsWellFormed(before, others);
      assert needs == before + [last];
      DistinctPush(before, last);
      assert EntryProblems(last, others, Names(before)) == [] <==> last.name in others && last.name !in Names(before);
    }
  }

  /** The check passes exactly when there is another job and `needs` lists each of them, once. */
  lemma NoProblemsExactly(w: Workflow)
    ensures Problems(w) == [] <==> Others(w.jobs) != {} && Names(w.needs) == Others(w.jobs) && Distinct(w.needs)
  {
    NoneMissing(w.jobs, Names(w.needs));
    NeedsWellFormed(w.needs, Others(w.jobs));
  }
}
