/** The list-building loops of tools/check_required_needs.py, each proved equal to the function that specifies it. */
module RequiredNeedsCheck {
  import opened RequiredNeeds
  import opened RequiredNeedsSelfTest
  import opened RequiredNeedsDrop

  /** Past the body of a block scalar. */
  method SkipScalarBody(lines: seq<Shape>, start: nat, end: nat, indent: nat) returns (i: nat)
    requires start <= end <= |lines|
    ensures i == SkipBody(lines, start, end, indent)
  {
    i := start;
    while i < end && (lines[i].blank || lines[i].indent > indent)
      invariant start <= i <= end
      invariant SkipBody(lines, i, end, indent) == SkipBody(lines, start, end, indent)
    {
      i := i + 1;
    }
  }

  method StructuralLines(lines: seq<Shape>, start: nat, end: nat) returns (kept: seq<Numbered>)
    requires start <= end <= |lines|
    ensures kept == Structural(lines, start, end)
  {
    kept := [];
    var i := start;
    while i < end
      invariant start <= i <= end
      invariant Structural(lines, start, end) == kept + Structural(lines, i, end)
    {
      var line := lines[i];
      ghost var before, at := kept, i;
      StructuralVisit(lines, i, end);
      i := i + 1;
      if !line.ignored {
        kept := kept + [Numbered(i, line)];
        if line.scalar {
          i := SkipScalarBody(lines, i, end, line.indent);
        }
        assert i == AfterLine(lines, at, end);
        assert before + ([Numbered(at + 1, line)] + Structural(lines, i, end)) == kept + Structural(lines, i, end);
      }
    }
  }

  method JobBodiesLoop(ns: seq<Numbered>) returns (r: Result<JobTable>)
    ensures r == JobBodiesOf(ns)
  {
    var jobs: seq<Entry>, bodies: map<string, seq<Numbered>> := [], map[];
    for n := 0 to |ns|
      invariant JobBodiesOf(ns[..n]) == Ok(JobTable(jobs, bodies))
    {
      assert ns[..n + 1] == ns[..n] + [ns[n]];
      JobBodiesPush(ns[..n], ns[n]);
      TablesAreClosed(ns[..n]);
      JobBodiesPrefix(ns, n + 1);
      var indent :- Indent(ns[n]);
      if indent >= BODY_INDENT && jobs != [] {
        var name := jobs[|jobs| - 1].name;
        bodies := bodies[name := bodies[name] + [ns[n]]];
      } else {
        var name := if indent == JOB_INDENT then ns[n].line.header else "";
        if name == "" {
          return Err(NotJobHeader(ns[n].no));
        }
        if name in bodies {
          return Err(JobDefinedTwice(ns[n].no));
        }
        jobs := jobs + [Entry(name, ns[n].no)];
        bodies := bodies[name := []];
      }
    }
    assert ns[..|ns|] == ns;
    r := Ok(JobTable(jobs, bodies));
  }

  /** The first error is the error of the whole. */
  lemma {:induction false} JobBodiesPrefix(ns: seq<Numbered>, n: nat)
    requires n <= |ns|
    ensures JobBodiesOf(ns[..n]).Err? ==> JobBodiesOf(ns) == JobBodiesOf(ns[..n])
    decreases |ns|
  {
    if n == |ns| {
      assert ns[..n] == ns;
    } else {
      var before := ns[..|ns| - 1];
      assert before[..n] == ns[..n] && ns == before + [ns[|ns| - 1]];
      JobBodiesPrefix(before, n);
      JobBodiesPush(before, ns[|ns| - 1]);
    }
  }

  method CheckBodyKeys(body: seq<Numbered>) returns (r: Result<()>)
    ensures r == BodyError(body)
  {
    for n := 0 to |body|
      invariant BodyError(body) == BodyError(body[n..])
    {
      assert body[n..][0] == body[n] && body[n..][1..] == body[n + 1..];
      var indent :- Indent(body[n]);
      if indent == BODY_INDENT && !body[n].line.bodyKey {
        return Err(NotBodyKey(body[n].no));
      }
    }
    r := Ok(());
  }

  method NeedsEntriesLoop(body: seq<Numbered>) returns (r: Result<seq<Entry>>)
    ensures r == NeedsEntries(body)
  {
    var _ :- CheckBodyKeys(body);
    var keys := Indices(Texts(body), LikeNeeds, 0);
    IndicesInRange(Texts(body), LikeNeeds, 0);
    if keys == [] {
      return Err(NoNeedsKey);
    }
    assert keys[0] in keys;
    if |keys| > 1 {
      assert keys[1] in keys;
      return Err(SecondNeedsKey(body[keys[1]].no));
    }
    if !body[keys[0]].line.needsKey {
      return Err(NeedsNotBlockList(body[keys[0]].no));
    }
    r := ItemsLoop(body[keys[0] + 1..]);
  }

  method ItemsLoop(rest: seq<Numbered>) returns (r: Result<seq<Entry>>)
    ensures r == ItemsFrom(rest)
  {
    var entries: seq<Entry> := [];
    assert rest[0..] == rest;
    if ItemsFrom(rest).Ok? {
      assert [] + ItemsFrom(rest).value == ItemsFrom(rest).value;
    }
    for n := 0 to |rest|
      invariant ItemsFrom(rest[n..]).Ok? ==> ItemsFrom(rest) == Ok(entries + ItemsFrom(rest[n..]).value)
      invariant ItemsFrom(rest[n..]).Err? ==> ItemsFrom(rest) == ItemsFrom(rest[n..])
    {
      ghost var here, later := rest[n..], rest[n + 1..];
      assert here[0] == rest[n] && here[1..] == later;
      var indent :- Indent(rest[n]);
      if indent <= BODY_INDENT {
        assert entries + [] == entries;
        return Ok(entries);
      }
      if rest[n].line.item == "" {
        return Err(NotNeedsItem(rest[n].no));
      }
      var e := Entry(rest[n].line.item, rest[n].no);
      if ItemsFrom(later).Ok? {
        assert entries + ([e] + ItemsFrom(later).value) == (entries + [e]) + ItemsFrom(later).value;
      }
      entries := entries + [e];
    }
    assert rest[|rest|..] == [] && entries + [] == entries;
    r := Ok(entries);
  }

  method ProblemsOfEntry(e: Entry, others: set<string>, seen: set<string>) returns (found: seq<Problem>)
    ensures found == EntryProblems(e, others, seen)
  {
    found := [];
    if e.name == AGGREGATOR {
      found := [ListsItself(e.line)];
    } else if e.name !in others {
      found := [UnknownJob(e.line, e.name)];
    }
    if e.name in seen {
      found := found + [ListedTwice(e.line, e.name)];
    }
  }

  method ProblemsOfNeeds(needs: seq<Entry>, others: set<string>) returns (found: seq<Problem>)
    ensures found == NeedsProblems(needs, others)
  {
    found := [];
    var seen: set<string> := {};
    for n := 0 to |needs|
      invariant seen == Names(needs[..n])
      invariant found == NeedsProblems(needs[..n], others)
    {
      var e := needs[n];
      assert needs[..n + 1][..n] == needs[..n] && needs[..n + 1] == needs[..n] + [e];
      DistinctPush(needs[..n], e);
      var here := ProblemsOfEntry(e, others, seen);
      found := found + here;
      seen := seen + {e.name};
    }
    assert needs[..|needs|] == needs;
  }

  /** `found` in the order of discovery; the source then sorts and renders it. */
  method FindProblems(w: Workflow) returns (found: seq<Problem>)
    ensures found == Problems(w)
    ensures found == [] <==> Others(w.jobs) != {} && Names(w.needs) == Others(w.jobs) && Distinct(w.needs)
  {
    var others, listed := Others(w.jobs), Names(w.needs);
    found := MissingFrom(w.jobs, listed);
    var entryProblems := ProblemsOfNeeds(w.needs, others);
    found := found + entryProblems;
    if others == {} {
      found := found + [NothingToAggregate];
    }
    NoProblemsExactly(w);
  }

  method FindProblemsIn(source: string) returns (r: Result<seq<Problem>>)
    ensures r == FindProblemsOf(source)
  {
    var lines :- Lines(source);
    var shapes := Shapes(lines);
    var section :- JobsSection(shapes);
    var ns := StructuralLines(shapes, section.0, section.1);
    var table :- JobBodiesLoop(ns);
    if AGGREGATOR !in table.bodies {
      return Err(NoRequiredJob);
    }
    var needs :- NeedsEntriesLoop(table.bodies[AGGREGATOR]);
    var found := FindProblems(Workflow(table.jobs, needs));
    r := Ok(found);
  }
}
