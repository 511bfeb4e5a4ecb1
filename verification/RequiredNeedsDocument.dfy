/** Workflows with whole job bodies: blank lines, comments and the texts of block scalars do not disturb the reading of
    the jobs and the `needs` around them. The layout is the one documented in tools/check_required_needs.py. */
module RequiredNeedsDocument {
  import opened RequiredNeeds
  import opened RequiredNeedsSelfTest
  import opened RequiredNeedsDrop
  import opened RequiredNeedsReading
  import opened RequiredNeedsLayout

  /** A blank line or comment, a line on its own, or a block scalar: its key and the lines of its text. */
  datatype Chunk = Gap(line: Shape) | Single(line: Shape) | Scalar(line: Shape, body: seq<Shape>)

  datatype Job = Job(head: Shape, body: seq<Chunk>)

  predicate BlankOrDeeper(line: Shape, indent: nat) { line.blank || line.indent > indent }

  predicate ValidChunk(c: Chunk) {
    match c
    case Gap(line) => line.ignored
    case Single(line) => !line.ignored && !line.scalar
    case Scalar(line, body) =>
      !line.ignored && line.scalar && forall i :: 0 <= i < |body| ==> BlankOrDeeper(body[i], line.indent)
  }

  /** What follows a block scalar is neither blank nor deeper than its key. */
  predicate PartedAt(cs: seq<Chunk>, i: nat) {
    i + 1 < |cs| && cs[i].Scalar? ==> !BlankOrDeeper(cs[i + 1].line, cs[i].line.indent)
  }

  predicate Chunks(cs: seq<Chunk>) { forall i: nat :: i < |cs| ==> ValidChunk(cs[i]) && PartedAt(cs, i) }

  function LinesOf(c: Chunk): seq<Shape> { [c.line] + if c.Scalar? then c.body else [] }

  function Flat(cs: seq<Chunk>): seq<Shape> { if cs == [] then [] else LinesOf(cs[0]) + Flat(cs[1..]) }

  /** The lines that are neither blank, nor comments, nor text of a block scalar. */
  function KeptOf(cs: seq<Chunk>): seq<Shape> {
    if cs == [] then []
    else if cs[0].Gap? then KeptOf(cs[1..])
    else [cs[0].line] + KeptOf(cs[1..])
  }

  function JobChunks(job: Job): seq<Chunk> { [Single(job.head)] + job.body }

  function AllChunks(jobs: seq<Job>): seq<Chunk> {
    if jobs == [] then [] else AllChunks(jobs[..|jobs| - 1]) + JobChunks(jobs[|jobs| - 1])
  }

  predicate IsHead(s: Shape) { !s.tab && s.indent == 2 && s.header != "" }
  predicate IsBody(s: Shape) { !s.tab && s.indent >= 4 }

  predicate IsJobLines(job: Job) { IsHead(job.head) && forall i :: 0 <= i < |KeptOf(job.body)| ==> IsBody(KeptOf(job.body)[i]) }

  predicate Jobs(jobs: seq<Job>) {
    && (forall i :: 0 <= i < |jobs| ==> IsJobLines(jobs[i]))
    && (forall i, j :: 0 <= i < j < |jobs| ==> jobs[i].head.header != jobs[j].head.header)
  }

  // ------------------------------------------------------------------
  // The structural lines
  // ------------------------------------------------------------------

  lemma FlatFirst(cs: seq<Chunk>)
    requires cs != []
    ensures Flat(cs) != [] && Flat(cs)[0] == cs[0].line
  {
  }

  predicate RestIs(ss: seq<Shape>, i: nat, end: nat, lines: seq<Shape>) { i <= end <= |ss| && ss[i..end] == lines }

  lemma RestLater(ss: seq<Shape>, i: nat, end: nat, first: seq<Shape>, later: seq<Shape>)
    requires RestIs(ss, i, end, first + later)
    ensures i + |first| <= end && RestIs(ss, i + |first|, end, later)
    ensures forall k :: 0 <= k < |first| ==> ss[i + k] == first[k]
  {
    assert |ss[i..end]| == |first| + |later|;
    forall k | 0 <= k < |first| ensures ss[i + k] == first[k] {
      assert ss[i..end][k] == (first + later)[k];
    }
    assert ss[i + |first|..end] == ss[i..end][|first|..];
    assert (first + later)[|first|..] == later;
  }

  /** Where the parser goes on after a chunk. */
  lemma AfterChunk(ss: seq<Shape>, i: nat, end: nat, cs: seq<Chunk>)
    requires cs != [] && Chunks(cs) && RestIs(ss, i, end, Flat(cs))
    ensures i + |LinesOf(cs[0])| <= end && ss[i] == cs[0].line && ss[i].ignored == cs[0].Gap?
    ensures !cs[0].Gap? ==> AfterLine(ss, i, end) == i + |LinesOf(cs[0])|
    ensures RestIs(ss, i + |LinesOf(cs[0])|, end, Flat(cs[1..]))
  {
    var first := LinesOf(cs[0]);
    RestLater(ss, i, end, first, Flat(cs[1..]));
    assert ss[i + 0] == first[0];
    assert ValidChunk(cs[0]);
    if cs[0].Scalar? {
      AfterScalar(ss, i, end, cs);
    }
  }

  lemma AfterScalar(ss: seq<Shape>, i: nat, end: nat, cs: seq<Chunk>)
    requires cs != [] && cs[0].Scalar? && ValidChunk(cs[0]) && PartedAt(cs, 0)
    requires i + |LinesOf(cs[0])| <= end && RestIs(ss, i + |LinesOf(cs[0])|, end, Flat(cs[1..]))
    requires forall k :: 0 <= k < |LinesOf(cs[0])| ==> ss[i + k] == LinesOf(cs[0])[k]
    ensures SkipBody(ss, i + 1, end, cs[0].line.indent) == i + |LinesOf(cs[0])|
  {
    var line, body, next := cs[0].line, cs[0].body, i + |LinesOf(cs[0])|;
    forall m: nat | i + 1 <= m < next ensures ss[m].blank || ss[m].indent > line.indent {
      assert ss[i + (m - i)] == LinesOf(cs[0])[m - i] == body[m - i - 1];
      assert BlankOrDeeper(body[m - i - 1], line.indent);
    }
    if next < end {
      assert ss[next..end][0] == ss[next];
      FlatFirst(cs[1..]);
    }
    SkipBodyExactly(ss, i + 1, end, line.indent, next);
  }

  lemma ChunksLater(cs: seq<Chunk>)
    requires cs != [] && Chunks(cs)
    ensures Chunks(cs[1..])
  {
    forall i: nat | i < |cs[1..]| ensures ValidChunk(cs[1..][i]) && PartedAt(cs[1..], i) {
      assert cs[1..][i] == cs[i + 1] && ValidChunk(cs[i + 1]) && PartedAt(cs, i + 1);
    }
  }

  lemma TextsPush(n: Numbered, later: seq<Numbered>)
    ensures Texts([n] + later) == [n.line] + Texts(later)
  {
  }

  /** Blank lines, comments and the texts of block scalars drop out, and nothing else. */
  lemma {:induction false} ChunksKept(ss: seq<Shape>, i: nat, end: nat, cs: seq<Chunk>)
    requires Chunks(cs) && RestIs(ss, i, end, Flat(cs))
    ensures Texts(Structural(ss, i, end)) == KeptOf(cs)
    decreases |cs|
  {
    if cs == [] {
      assert |ss[i..end]| == 0;
    } else {
      AfterChunk(ss, i, end, cs);
      ChunksLater(cs);
      var next := i + |LinesOf(cs[0])|;
      ChunksKept(ss, next, end, cs[1..]);
      StructuralVisit(ss, i, end);
      TextsPush(Numbered(i + 1, ss[i]), Structural(ss, next, end));
    }
  }

  lemma {:induction false} KeptAppend(a: seq<Chunk>, b: seq<Chunk>)
    ensures KeptOf(a + b) == KeptOf(a) + KeptOf(b)
  {
    if a == [] {
      assert a + b == b;
    } else {
      assert (a + b)[0] == a[0] && (a + b)[1..] == a[1..] + b;
      KeptAppend(a[1..], b);
    }
  }

  // ------------------------------------------------------------------
  // The jobs
  // ------------------------------------------------------------------

  /** The table lists jobs of these names in order, each with these lines in its body. */
  ghost predicate Tabulates(t: JobTable, names: seq<string>, bodies: seq<seq<Shape>>) {
    && |t.jobs| == |names| == |bodies| && (forall i :: 0 <= i < |names| ==> t.jobs[i].name == names[i])
    && (forall name :: name in t.bodies ==> name in names)
    && (forall i :: 0 <= i < |names| ==> HasBody(t.bodies, names[i], bodies[i]))
  }

  predicate HasBody(table: map<string, seq<Numbered>>, name: string, lines: seq<Shape>) {
    name in table && Texts(table[name]) == lines
  }

  lemma HasBodyStill(table: map<string, seq<Numbered>>, name: string, lines: seq<Shape>, other: string, body: seq<Numbered>)
    requires HasBody(table, name, lines) && other != name
    ensures HasBody(table[other := body], name, lines)
  {
  }

  /** The table with one more job. */
  function Joined(t: JobTable, name: string, no: nat, body: seq<Numbered>): JobTable {
    JobTable(t.jobs + [Entry(name, no)], t.bodies[name := body])
  }

  lemma JobJoins(t: JobTable, name: string, no: nat, body: seq<Numbered>, names: seq<string>, bodies: seq<seq<Shape>>)
    requires Tabulates(t, names, bodies) && name !in names
    ensures Tabulates(Joined(t, name, no, body), names + [name], bodies + [Texts(body)])
  {
    var t1, all, texts := Joined(t, name, no, body), names + [name], bodies + [Texts(body)];
    forall i | 0 <= i < |all| ensures HasBody(t1.bodies, all[i], texts[i]) {
      if i < |names| {
        HasBodyStill(t.bodies, names[i], bodies[i], name, body);
      }
    }
  }

  lemma HeadAdds(t: JobTable, n: Numbered)
    requires IsHead(n.line) && n.line.header !in t.bodies
    ensures AddLine(t, n) == Ok(Joined(t, n.line.header, n.no, []))
  {
  }

  /** A header and its body lines add one job. */
  lemma JobParses(ns: seq<Numbered>, t: JobTable, n: Numbered, body: seq<Numbered>)
    requires JobBodiesOf(ns) == Ok(t) && IsHead(n.line) && n.line.header !in t.bodies
    requires forall i :: 0 <= i < |body| ==> IsBody(body[i].line)
    ensures JobBodiesOf((ns + [n]) + body) == Ok(Joined(t, n.line.header, n.no, body))
  {
    var name := n.line.header;
    JobBodiesPush(ns, n);
    HeadAdds(t, n);
    var t1 := Joined(t, name, n.no, []);
    BodyParses(ns + [n], t1, body, name);
    assert [] + body == body;
    assert t1.bodies[name := body] == t.bodies[name := body];
  }

  function HeadersOf(jobs: seq<Job>): seq<string> { seq(|jobs|, i requires 0 <= i < |jobs| => jobs[i].head.header) }

  function KeptBodies(jobs: seq<Job>): seq<seq<Shape>> { seq(|jobs|, i requires 0 <= i < |jobs| => KeptOf(jobs[i].body)) }

  lemma LastJobKept(jobs: seq<Job>)
    requires jobs != []
    ensures var front, last := jobs[..|jobs| - 1], jobs[|jobs| - 1];
      && KeptOf(AllChunks(jobs)) == KeptOf(AllChunks(front)) + [last.head] + KeptOf(last.body)
      && HeadersOf(jobs) == HeadersOf(front) + [last.head.header] && KeptBodies(jobs) == KeptBodies(front) + [KeptOf(last.body)]
  {
    var front, last := jobs[..|jobs| - 1], jobs[|jobs| - 1];
    KeptAppend(AllChunks(front), JobChunks(last));
    KeptAppend([Single(last.head)], last.body);
    assert KeptOf([Single(last.head)]) == [last.head];
  }

  /** The numbered lines of a text, cut where a job begins. */
  lemma CutAtHead(ns: seq<Numbered>, front: seq<Shape>, head: Shape, body: seq<Shape>)
      returns (before: seq<Numbered>, n: Numbered, later: seq<Numbered>)
    requires Texts(ns) == front + [head] + body
    ensures ns == (before + [n]) + later && Texts(before) == front && n.line == head && Texts(later) == body
    ensures |before| < |ns|
  {
    var k := |front|;
    assert |Texts(ns)| == |ns|;
    before, n, later := ns[..k], ns[k], ns[k + 1..];
    assert Texts(before) == Texts(ns)[..k] == front;
    assert Texts(ns)[k] == n.line;
    assert Texts(later) == Texts(ns)[k + 1..] == body;
  }

  /** Jobs read as themselves, whatever block scalars their bodies hold. */
  lemma {:induction false} JobsTabulate(ns: seq<Numbered>, jobs: seq<Job>)
    requires Jobs(jobs) && Texts(ns) == KeptOf(AllChunks(jobs))
    ensures JobBodiesOf(ns).Ok? && Tabulates(JobBodiesOf(ns).value, HeadersOf(jobs), KeptBodies(jobs))
    decreases |jobs|
  {
    if jobs == [] {
      assert |Texts(ns)| == |ns|;
    } else {
      var front, last := jobs[..|jobs| - 1], jobs[|jobs| - 1];
      LastJobKept(jobs);
      var before, n, later := CutAtHead(ns, KeptOf(AllChunks(front)), last.head, KeptOf(last.body));
      JobsTabulate(before, front);
      var t := JobBodiesOf(before).value;
      assert IsJobLines(last);
      forall i | 0 <= i < |later| ensures IsBody(later[i].line) {
        assert Texts(later)[i] == later[i].line == KeptOf(last.body)[i];
      }
      assert n.line.header !in HeadersOf(front);
      JobParses(before, t, n, later);
      JobJoins(t, n.line.header, n.no, later, HeadersOf(front), KeptBodies(front));
    }
  }

  // ------------------------------------------------------------------
  // The needs
  // ------------------------------------------------------------------

  predicate ItemIs(line: Shape, name: string) { line.indent > 4 && line.item == name && name != "" }

  /** Line `k` of a body is its only `needs` key, and these items follow it. */
  predicate NeedsAt(body: seq<Shape>, k: nat, items: seq<string>) {
    && k + |items| < |body| && body[k].needsKey
    && (forall i :: 0 <= i < |body| ==> (body[i].needsLike <==> i == k) && !body[i].tab && (body[i].indent == 4 ==> body[i].bodyKey))
    && (forall r :: 0 <= r < |items| ==> ItemIs(body[k + 1 + r], items[r]))
    && (k + 1 + |items| < |body| ==> body[k + 1 + |items|].indent <= 4)
  }

  function EntriesAt(body: seq<Numbered>, k: nat, items: seq<string>): (es: seq<Entry>)
    requires k + |items| < |body|
    ensures |es| == |items| && forall r :: 0 <= r < |items| ==> es[r] == Entry(items[r], body[k + 1 + r].no)
  {
    seq(|items|, r requires 0 <= r < |items| => Entry(items[r], body[k + 1 + r].no))
  }

  lemma TextAt(body: seq<Numbered>, lines: seq<Shape>, i: nat)
    requires Texts(body) == lines && i < |body|
    ensures |lines| == |body| && body[i].line == lines[i]
  {
    assert Texts(body)[i] == body[i].line;
  }

  lemma ItemsAre(body: seq<Numbered>, lines: seq<Shape>, k: nat, items: seq<string>)
    requires Texts(body) == lines && NeedsAt(lines, k, items)
    ensures |body| == |lines| && NeedsEntries(body) == Ok(EntriesAt(body, k, items))
  {
    assert |Texts(body)| == |body|;
    forall i: nat | i < |body| ensures body[i].line == lines[i] {
      TextAt(body, lines, i);
    }
    var es, rest := EntriesAt(body, k, items), body[k + 1..];
    forall r: nat | r < |es| ensures rest[r].line.indent > 4 && rest[r].line.item != "" && es[r] == EntryOf(rest[r]) {
      assert rest[r] == body[k + 1 + r] && rest[r].line == lines[k + 1 + r];
      assert ItemIs(lines[k + 1 + r], items[r]);
    }
    assert |es| < |rest| ==> rest[|es|] == body[k + 1 + |es|];
    assert NeedsBlock(body, k, es);
    assert KeyedBody(body);
    NeedsExactly(body, es);
  }

  // ------------------------------------------------------------------
  // The text
  // ------------------------------------------------------------------

  /** The lines of the jobs section fall into these jobs, and the body of job `r` holds these needs. */
  predicate Documents(ss: seq<Shape>, start: nat, end: nat, jobs: seq<Job>, r: nat, k: nat, items: seq<string>) {
    && SectionOf(ss, start, end) && ss[start..end] == Flat(AllChunks(jobs)) && Chunks(AllChunks(jobs)) && Jobs(jobs)
    && r < |jobs| && jobs[r].head.header == AGGREGATOR && NeedsAt(KeptOf(jobs[r].body), k, items)
  }

  predicate NamesAre(entries: seq<Entry>, names: seq<string>) {
    |entries| == |names| && forall i :: 0 <= i < |names| ==> entries[i].name == names[i]
  }

  /** Such a text parses to its jobs and its needs, in order. */
  lemma DocumentParses(source: string, lines: seq<Line>, start: nat, end: nat, jobs: seq<Job>, r: nat, k: nat, items: seq<string>)
    requires Lines(source) == Ok(lines) && Documents(Shapes(lines), start, end, jobs, r, k, items)
    ensures Parse(source).Ok?
    ensures NamesAre(Parse(source).value.jobs, HeadersOf(jobs)) && NamesAre(Parse(source).value.needs, items)
  {
    var ss := Shapes(lines);
    SectionExactly(ss, start, end);
    ChunksKept(ss, start, end, AllChunks(jobs));
    var ns := Structural(ss, start, end);
    JobsTabulate(ns, jobs);
    var t := JobBodiesOf(ns).value;
    assert HasBody(t.bodies, HeadersOf(jobs)[r], KeptBodies(jobs)[r]);
    var body := t.bodies[AGGREGATOR];
    ItemsAre(body, KeptOf(jobs[r].body), k, items);
    ParseIs(ss, start, end, ns, t, EntriesAt(body, k, items));
  }

  /** It passes the check exactly when its needs are the other jobs, each once, and there is another job. */
  lemma DocumentPassesExactly(source: string, lines: seq<Line>, start: nat, end: nat, jobs: seq<Job>, r: nat, k: nat, items: seq<string>)
    requires Lines(source) == Ok(lines) && Documents(Shapes(lines), start, end, jobs, r, k, items)
    ensures FindProblemsOf(source) == Ok([]) <==>
      && (exists job :: job in jobs && job.head.header != AGGREGATOR) && DistinctNames(items)
      && (set item | item in items) == (set job | job in jobs && job.head.header != AGGREGATOR :: job.head.header)
  {
    DocumentParses(source, lines, start, end, jobs, r, k, items);
    var w := Parse(source).value;
    FoundIs(source, w);
    NoProblemsExactly(w);
    NamesOfEntries(w.needs, items);
    NamesOfEntries(w.jobs, HeadersOf(jobs));
    OtherHeaders(jobs);
  }

  lemma OtherHeaders(jobs: seq<Job>)
    ensures var others := set job | job in jobs && job.head.header != AGGREGATOR :: job.head.header;
      && (set name | name in HeadersOf(jobs)) - {AGGREGATOR} == others
      && (others != {} <==> exists job :: job in jobs && job.head.header != AGGREGATOR)
  {
    var others, names := set job | job in jobs && job.head.header != AGGREGATOR :: job.head.header, HeadersOf(jobs);
    forall name | name in others ensures name in names {
      var job :| job in jobs && job.head.header == name;
      var i :| 0 <= i < |jobs| && jobs[i] == job;
      assert names[i] == name;
    }
    forall name | name in names && name != AGGREGATOR ensures name in others {
      var i :| 0 <= i < |names| && names[i] == name;
      assert jobs[i] in jobs && jobs[i].head.header == name;
    }
    if job :| job in jobs && job.head.header != AGGREGATOR {
      assert job.head.header in others;
    }
  }
}
