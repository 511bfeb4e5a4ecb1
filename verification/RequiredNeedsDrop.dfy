/** Dropping one `needs` item line from a source text: what the parser makes of the rest, and the theorem that
    the self-test of tools/check_required_needs.py never finds an unreported removal. */
module RequiredNeedsDrop {
  import opened Prelude
  import opened RequiredNeeds
  import opened RequiredNeedsSelfTest

  // ------------------------------------------------------------------
  // Lines
  // ------------------------------------------------------------------

  lemma {:induction false} SkipAfter(lines: seq<Shape>, d: nat, i: nat, end: nat, indent: nat)
    requires d < i <= end <= |lines|
    ensures SkipBody(Dropped(lines, d), i - 1, end - 1, indent) == SkipBody(lines, i, end, indent) - 1
    decreases end - i
  {
    if i < end {
      assert Dropped(lines, d)[i - 1] == lines[i];
      SkipAfter(lines, d, i + 1, end, indent);
    }
  }

  lemma {:induction false} SkipBefore(lines: seq<Shape>, d: nat, i: nat, end: nat, indent: nat)
    requires i <= d < end <= |lines| && SkipBody(lines, i, end, indent) < d
    ensures SkipBody(Dropped(lines, d), i, end - 1, indent) == SkipBody(lines, i, end, indent)
    decreases end - i
  {
    assert i < d;
    assert Dropped(lines, d)[i] == lines[i];
    if SkipBody(lines, i, end, indent) > i {
      SkipBefore(lines, d, i + 1, end, indent);
    }
  }

  lemma {:induction false} StructuralNumbers(lines: seq<Shape>, i: nat, end: nat)
    requires i <= end <= |lines|
    ensures forall y :: y in Structural(lines, i, end) ==> i < y.no <= end && y.line == lines[y.no - 1]
    decreases end - i
  {
    if i < end {
      if lines[i].ignored {
        StructuralNumbers(lines, i + 1, end);
      } else {
        StructuralNumbers(lines, AfterLine(lines, i, end), end);
      }
    }
  }

  lemma StructuralVisit(lines: seq<Shape>, i: nat, end: nat)
    requires i < end <= |lines|
    ensures Structural(lines, i, end) ==
      if lines[i].ignored then Structural(lines, i + 1, end)
      else [Numbered(i + 1, lines[i])] + Structural(lines, AfterLine(lines, i, end), end)
  {
  }

  lemma AfterLineAfter(lines: seq<Shape>, d: nat, i: nat, end: nat)
    requires d < i < end <= |lines|
    ensures Dropped(lines, d)[i - 1] == lines[i]
    ensures AfterLine(Dropped(lines, d), i - 1, end - 1) == AfterLine(lines, i, end) - 1
  {
    SkipAfter(lines, d, i + 1, end, lines[i].indent);
  }

  /** Behind the dropped line every position moves up by one; `i1` and `end1` are the moved `i` and `end`. */
  lemma {:induction false} StructuralAfter(lines: seq<Shape>, less: seq<Shape>, d: nat, i: nat, i1: nat, end: nat, end1: nat)
    requires d < i <= end <= |lines| && less == Dropped(lines, d) && i1 == i - 1 && end1 == end - 1
    ensures Structural(less, i1, end1) == Cut(Structural(lines, i, end), d + 1)
    decreases end - i
  {
    if i < end {
      AfterLineAfter(lines, d, i, end);
      if lines[i].ignored {
        StructuralAfter(lines, less, d, i + 1, i1 + 1, end, end1);
      } else {
        var next, next1 := AfterLine(lines, i, end), AfterLine(less, i1, end1);
        StructuralAfter(lines, less, d, next, next1, end, end1);
        VisitAfter(lines, less, d, i, i1, end, end1, next, next1);
      }
    }
  }

  lemma VisitAfter(lines: seq<Shape>, less: seq<Shape>, d: nat, i: nat, i1: nat, end: nat, end1: nat, next: nat, next1: nat)
    requires d < i < end <= |lines| && i1 == i - 1 && i1 < end1 <= |less|
    requires !lines[i].ignored && less[i1] == lines[i] && next == AfterLine(lines, i, end) && next1 == AfterLine(less, i1, end1)
    requires Structural(less, next1, end1) == Cut(Structural(lines, next, end), d + 1)
    ensures Structural(less, i1, end1) == Cut(Structural(lines, i, end), d + 1)
  {
    var n, n1 := Numbered(i + 1, lines[i]), Numbered(i1 + 1, less[i1]);
    assert Moved(n, d + 1) == n1;
    CutFirst(n, Structural(lines, next, end), d + 1);
    assert Structural(less, i1, end1) == [n1] + Structural(less, next1, end1);
  }

  lemma CutFirst(n: Numbered, rest: seq<Numbered>, at: nat)
    ensures Cut([n] + rest, at) == if n.no == at then Cut(rest, at) else [Moved(n, at)] + Cut(rest, at)
  {
    assert ([n] + rest)[1..] == rest;
  }

  predicate PlainLine(line: Shape) { !line.ignored && !line.scalar }

  lemma CutHead(all: seq<Numbered>, n: Numbered, rest: seq<Numbered>, at: nat)
    requires all == [n] + rest && n.no == at
    ensures Cut(all, at) == Cut(rest, at)
  {
    CutFirst(n, rest, at);
  }

  lemma PlainLineFirst(lines: seq<Shape>, d: nat, end: nat, next: nat)
    requires d < end <= |lines| && PlainLine(lines[d]) && next == d + 1
    ensures Structural(lines, d, end) == [Numbered(next, lines[d])] + Structural(lines, next, end)
  {
    StructuralVisit(lines, d, end);
  }

  lemma StructuralDropHere(lines: seq<Shape>, less: seq<Shape>, d: nat, next: nat, end: nat, end1: nat)
    requires d < end <= |lines| && PlainLine(lines[d]) && less == Dropped(lines, d) && next == d + 1 && end1 == end - 1
    ensures Structural(less, d, end1) == Cut(Structural(lines, d, end), next)
  {
    StructuralAfter(lines, less, d, next, d, end, end1);
    PlainLineFirst(lines, d, end, next);
    CutHead(Structural(lines, d, end), Numbered(next, lines[d]), Structural(lines, next, end), next);
  }

  lemma IgnoredSkips(lines: seq<Shape>, i: nat, end: nat)
    requires i < end <= |lines| && lines[i].ignored
    ensures Structural(lines, i, end) == Structural(lines, i + 1, end)
  {
  }

  /** Dropping a structural line that opens no block scalar, and does not end the body of one, drops exactly that
      line from the structural lines. */
  lemma {:induction false} StructuralDrop(lines: seq<Shape>, d: nat, i: nat, end: nat, p: nat)
    requires i <= d < end <= |lines| && PlainLine(lines[d])
    requires p < |Structural(lines, i, end)| && Structural(lines, i, end)[p].no == d + 1
    requires p > 0 ==> !Structural(lines, i, end)[p - 1].line.scalar
    ensures Structural(Dropped(lines, d), i, end - 1) == Cut(Structural(lines, i, end), d + 1)
    decreases end - i
  {
    if i == d {
      StructuralDropHere(lines, Dropped(lines, d), d, d + 1, end, end - 1);
    } else {
      if lines[i].ignored {
        IgnoredSkips(lines, i, end);
        IgnoredSkips(Dropped(lines, d), i, end - 1);
        StructuralDrop(lines, d, i + 1, end, p);
      } else {
        StructuralDropVisited(lines, d, i, end, p);
      }
    }
  }

  lemma AfterLineBefore(lines: seq<Shape>, d: nat, i: nat, end: nat)
    requires i < d < end <= |lines|
    requires AfterLine(lines, i, end) < d || (AfterLine(lines, i, end) == d && !lines[i].scalar)
    ensures Dropped(lines, d)[i] == lines[i]
    ensures AfterLine(Dropped(lines, d), i, end - 1) == AfterLine(lines, i, end)
  {
    if lines[i].scalar {
      SkipBefore(lines, d, i + 1, end, lines[i].indent);
    }
  }

  lemma StructuralDropVisited(lines: seq<Shape>, d: nat, i: nat, end: nat, p: nat)
    requires i < d < end <= |lines| && PlainLine(lines[d]) && !lines[i].ignored
    requires p < |Structural(lines, i, end)| && Structural(lines, i, end)[p].no == d + 1
    requires p > 0 ==> !Structural(lines, i, end)[p - 1].line.scalar
    ensures Structural(Dropped(lines, d), i, end - 1) == Cut(Structural(lines, i, end), d + 1)
    decreases end - i, 0
  {
    var n, next := Numbered(i + 1, lines[i]), AfterLine(lines, i, end);
    var rest := Structural(lines, next, end);
    StructuralVisit(lines, i, end);
    assert p > 0 && rest[p - 1].no == d + 1 && rest[p - 1] in rest;
    StructuralNumbers(lines, next, end);
    if next == d {
      NumbersOnce(lines, next, end, p - 1);
    }
    AfterLineBefore(lines, d, i, end);
    StructuralVisit(Dropped(lines, d), i, end - 1);
    assert p > 1 ==> rest[p - 2] == Structural(lines, i, end)[p - 1];
    StructuralDrop(lines, d, next, end, p - 1);
    CutFirst(n, rest, d + 1);
  }

  /** Only the first structural line can have the first line's number. */
  lemma NumbersOnce(lines: seq<Shape>, i: nat, end: nat, q: nat)
    requires i < end <= |lines| && q < |Structural(lines, i, end)| && Structural(lines, i, end)[q].no == i + 1
    ensures q == 0
  {
    StructuralVisit(lines, i, end);
    var next := if lines[i].ignored then i + 1 else AfterLine(lines, i, end);
    var rest := Structural(lines, next, end);
    StructuralNumbers(lines, next, end);
    forall k | 0 <= k < |rest| ensures rest[k].no > i + 1 {
      assert rest[k] in rest;
    }
  }

  // ------------------------------------------------------------------
  // The jobs section
  // ------------------------------------------------------------------

  lemma {:induction false} FirstAfter(lines: seq<Shape>, d: nat, i: nat, p: Shape -> bool)
    requires d < i <= |lines|
    ensures FirstFrom(Dropped(lines, d), i - 1, p) == FirstFrom(lines, i, p) - 1
    decreases |lines| - i
  {
    if i < |lines| {
      assert Dropped(lines, d)[i - 1] == lines[i];
      FirstAfter(lines, d, i + 1, p);
    }
  }

  lemma {:induction false} FirstDrop(lines: seq<Shape>, d: nat, i: nat, p: Shape -> bool)
    requires i <= d < |lines| && d < FirstFrom(lines, i, p)
    ensures FirstFrom(Dropped(lines, d), i, p) == FirstFrom(lines, i, p) - 1
    decreases d - i
  {
    if i == d {
      FirstAfter(lines, d, d + 1, p);
    } else {
      assert Dropped(lines, d)[i] == lines[i];
      FirstDrop(lines, d, i + 1, p);
    }
  }

  lemma OneIndexDrop(lines: seq<Shape>, d: nat, k: nat, p: Shape -> bool)
    requires OnlyAt(lines, k, p) && k < d < |lines|
    ensures OnlyAt(Dropped(lines, d), k, p)
  {
    var less := Dropped(lines, d);
    assert forall i :: 0 <= i < |less| ==> less[i] == lines[if i < d then i else i + 1];
  }

  lemma SectionIs(lines: seq<Shape>, k: nat, end: nat)
    requires OnlyAt(lines, k, LikeJobs) && lines[k].jobsKey && end == FirstFrom(lines, k + 1, Top)
    requires end < |lines| ==> lines[end].topKey
    ensures JobsSection(lines) == Ok((k + 1, end))
  {
    OnlyIndex(lines, LikeJobs, 0, k);
  }

  lemma SectionAt(lines: seq<Shape>) returns (k: nat, end: nat)
    requires JobsSection(lines).Ok?
    ensures OnlyAt(lines, k, LikeJobs) && lines[k].jobsKey && end == FirstFrom(lines, k + 1, Top)
    ensures end < |lines| ==> lines[end].topKey
    ensures JobsSection(lines).value == (k + 1, end)
  {
    k := Indices(lines, LikeJobs, 0)[0];
    OnlyIndex(lines, LikeJobs, 0, k);
    end := FirstFrom(lines, k + 1, Top);
  }

  lemma SectionDrop(lines: seq<Shape>, d: nat)
    requires d < |lines| && JobsSection(lines).Ok?
    requires JobsSection(lines).value.0 <= d < JobsSection(lines).value.1
    ensures JobsSection(Dropped(lines, d)) == Ok((JobsSection(lines).value.0, JobsSection(lines).value.1 - 1))
  {
    var k, end := SectionAt(lines);
    OneIndexDrop(lines, d, k, LikeJobs);
    FirstDrop(lines, d, k + 1, Top);
    SectionIs(Dropped(lines, d), k, end - 1);
  }

  // ------------------------------------------------------------------
  // Pieces of the text
  // ------------------------------------------------------------------

  predicate WholePiece(piece: string) { Span(piece, c => c != '\n') == |piece| - 1 }

  /** Every piece but the last ends with its only newline; the last may lack one but is not empty. */
  predicate WellCut(pieces: seq<string>) {
    && (forall i :: 0 <= i < |pieces| - 1 ==> WholePiece(pieces[i]))
    && (pieces != [] ==> pieces[|pieces| - 1] != "" && Span(pieces[|pieces| - 1], c => c != '\n') >= |pieces[|pieces| - 1]| - 1)
  }

  /** The first piece and what is left of a text that has a newline. */
  lemma FirstPiece(source: string) returns (piece: string, rest: string)
    requires source != [] && Span(source, c => c != '\n') < |source|
    ensures source == piece + rest && WholePiece(piece) && Pieces(source) == [piece] + Pieces(rest) && |rest| < |source|
  {
    var n := Span(source, c => c != '\n');
    piece, rest := source[..n + 1], source[n + 1..];
    SpanIs(piece, c => c != '\n', n);
  }

  lemma {:induction false} PiecesWellCut(source: string)
    ensures WellCut(Pieces(source)) && Join(Pieces(source)) == source
    decreases |source|
  {
    if source != [] {
      if Span(source, c => c != '\n') < |source| {
        var piece, rest := FirstPiece(source);
        PiecesWellCut(rest);
        assert Pieces(source)[1..] == Pieces(rest);
      } else {
        assert Join([source]) == source + Join([]);
      }
    }
  }

  lemma {:induction false} PiecesOfJoin(pieces: seq<string>)
    requires WellCut(pieces)
    ensures Pieces(Join(pieces)) == pieces
  {
    if pieces != [] {
      var p, rest := pieces[0], pieces[1..];
      var source := Join(pieces);
      assert source == p + Join(rest);
      var n := Span(p, c => c != '\n');
      if rest == [] {
        assert source == p;
        if n < |p| {
          assert source[..n + 1] == p && source[n + 1..] == [];
        }
      } else {
        assert rest[|rest| - 1] == pieces[|pieces| - 1];
        PiecesOfJoin(rest);
        SpanIs(source, c => c != '\n', n);
        assert source[..n + 1] == p && source[n + 1..] == Join(rest);
      }
    }
  }

  lemma DroppedWellCut(pieces: seq<string>, d: nat)
    requires WellCut(pieces) && d < |pieces|
    ensures WellCut(Dropped(pieces, d))
  {
    var less := Dropped(pieces, d);
    forall i | 0 <= i < |less| ensures less[i] == pieces[if i < d then i else i + 1] {
    }
  }

  lemma ForeignAppend(a: string, b: string)
    requires a == "" || a[|a| - 1] == '\n'
    ensures HasForeign(a + b) <==> HasForeign(a) || HasForeign(b)
  {
    forall i | 0 <= i < |a| ensures ForeignAt(a + b, i) == ForeignAt(a, i) {
      assert i + 1 < |a| ==> (a + b)[i + 1] == a[i + 1];
    }
    forall i | 0 <= i < |b| ensures ForeignAt(a + b, |a| + i) == ForeignAt(b, i) {
      assert i + 1 < |b| ==> (a + b)[|a| + i + 1] == b[i + 1];
    }
    if HasForeign(a + b) {
      var i :| 0 <= i < |a + b| && ForeignAt(a + b, i);
      assert i >= |a| ==> ForeignAt(b, i - |a|);
    }
  }

  predicate AnyForeign(pieces: seq<string>) { exists i :: 0 <= i < |pieces| && HasForeign(pieces[i]) }

  lemma {:induction false} ForeignPieces(pieces: seq<string>)
    requires WellCut(pieces)
    ensures HasForeign(Join(pieces)) <==> AnyForeign(pieces)
  {
    if |pieces| == 1 {
      assert Join(pieces) == pieces[0] + Join(pieces[1..]);
      assert pieces[0] + "" == pieces[0];
      assert AnyForeign(pieces) <==> HasForeign(pieces[0]);
    } else if |pieces| > 1 {
      var p, rest := pieces[0], pieces[1..];
      assert rest[|rest| - 1] == pieces[|pieces| - 1];
      ForeignPieces(rest);
      ForeignAppend(p, Join(rest));
      assert AnyForeign(pieces) <==> HasForeign(p) || AnyForeign(rest) by {
        assert forall i :: 0 <= i < |rest| ==> rest[i] == pieces[i + 1];
      }
    }
  }

  lemma DroppedNotForeign(pieces: seq<string>, d: nat)
    requires d < |pieces| && !AnyForeign(pieces)
    ensures !AnyForeign(Dropped(pieces, d))
  {
    var less := Dropped(pieces, d);
    forall i | 0 <= i < |less| ensures !HasForeign(less[i]) {
      assert less[i] == pieces[if i < d then i else i + 1];
    }
  }

  lemma ChompedDrop(pieces: seq<string>, d: nat)
    requires d < |pieces|
    ensures Chomped(Dropped(pieces, d)) == Dropped(Chomped(pieces), d)
  {
  }

  /** The text without one line has exactly the other lines. */
  lemma LinesDrop(source: string, d: nat)
    requires Lines(source).Ok? && d < |Lines(source).value|
    ensures Lines(DropLine(source, d + 1)) == Ok(Dropped(Lines(source).value, d))
  {
    var pieces := Pieces(source);
    var less := Dropped(pieces, d);
    PiecesWellCut(source);
    DroppedWellCut(pieces, d);
    PiecesOfJoin(less);
    ForeignPieces(pieces);
    ForeignPieces(less);
    DroppedNotForeign(pieces, d);
    ChompedDrop(pieces, d);
  }

  // ------------------------------------------------------------------
  // The parse
  // ------------------------------------------------------------------

  /** What the line grammar guarantees about items and keys. */
  ghost predicate Lexed(lines: seq<Shape>) {
    forall line :: line in lines ==>
      && (line.item != "" ==> !line.ignored && !line.scalar && !line.jobsLike && !line.needsLike && line.indent == 6 && !line.tab)
      && (line.needsKey ==> !line.scalar)
  }

  lemma ShapesAreLexed(lines: seq<Line>)
    ensures Lexed(Shapes(lines))
  {
    forall i | 0 <= i < |lines|
      ensures var line := ShapeOf(lines[i]);
        && (line.item != "" ==> !line.ignored && !line.scalar && !line.jobsLike && !line.needsLike && line.indent == 6 && !line.tab)
        && (line.needsKey ==> !line.scalar)
    {
      if IsItem(lines[i]) {
        ItemShape(lines[i]);
        assert lines[i][..8][6] == '-';
      }
      if NeedsKey(lines[i]) {
        NeedsKeyNoScalar(lines[i]);
      }
    }
  }

  lemma {:induction false} BodiesFromLines(ns: seq<Numbered>)
    requires JobBodiesOf(ns).Ok?
    ensures forall name, y :: name in JobBodiesOf(ns).value.bodies && y in JobBodiesOf(ns).value.bodies[name] ==> y in ns
  {
    if ns != [] {
      var before, n := ns[..|ns| - 1], ns[|ns| - 1];
      BodiesFromLines(before);
      JobBodiesPush(before, n);
      assert ns == before + [n];
    }
  }

  /** In a body, an entry follows the `needs:` key or another entry. */
  lemma EntryInBody(body: seq<Numbered>, needs: seq<Entry>, r: nat) returns (q: nat)
    requires NeedsEntries(body) == Ok(needs) && r < |needs|
    ensures 0 < q < |body| && IsEntry(body[q]) && needs[r] == EntryOf(body[q])
    ensures body[q - 1].line.needsKey || IsEntry(body[q - 1])
  {
    var k := NeedsKeyAt(body);
    var rest := body[k + 1..];
    ItemsAt(rest, r);
    q := k + 1 + r;
    assert rest[r] == body[q];
    assert r > 0 ==> rest[r - 1] == body[q - 1];
  }

  /** Where an entry comes from: a structural line, and the one before it opens no block scalar. */
  lemma EntryLine(lines: seq<Shape>, ns: seq<Numbered>, body: seq<Numbered>, needs: seq<Entry>, r: nat) returns (p: nat)
    requires Lexed(lines) && (forall y :: y in ns ==> y.line in lines) && (forall y :: y in body ==> y in ns)
    requires BodyTogether(ns, body) && NeedsEntries(body) == Ok(needs) && r < |needs|
    ensures 0 < p < |ns| && IsEntry(ns[p]) && needs[r] == EntryOf(ns[p])
    ensures !ns[p - 1].line.scalar
  {
    var q := EntryInBody(body, needs, r);
    assert body[q - 1] in body && body[q] in body;
    assert FollowedIn(ns, body, q);
    p :| 0 < p < |ns| && NextAt(ns, p, body[q - 1], body[q]);
  }

  /** The intermediate results of a successful parse. */
  lemma BodyOfParse(lines: seq<Shape>, w: Workflow)
      returns (start: nat, end: nat, ns: seq<Numbered>, t: JobTable, body: seq<Numbered>)
    requires ParseLines(lines) == Ok(w)
    ensures JobsSection(lines) == Ok((start, end)) && start <= end <= |lines| && ns == Structural(lines, start, end)
    ensures JobBodiesOf(ns) == Ok(t) && AGGREGATOR in t.bodies && body == t.bodies[AGGREGATOR]
    ensures NeedsEntries(body) == Ok(w.needs) && w.jobs == t.jobs
    ensures forall y :: y in ns ==> start < y.no <= end && y.line == lines[y.no - 1]
    ensures forall y :: y in body ==> y in ns
    ensures BodyTogether(ns, body)
  {
    var section := JobsSection(lines).value;
    start, end := section.0, section.1;
    ns := Structural(lines, start, end);
    t := JobBodiesOf(ns).value;
    body := t.bodies[AGGREGATOR];
    StructuralNumbers(lines, start, end);
    BodiesFromLines(ns);
    BodiesTogether(ns);
  }

  lemma ParseIs(lines: seq<Shape>, start: nat, end: nat, ns: seq<Numbered>, t: JobTable, needs: seq<Entry>)
    requires JobsSection(lines) == Ok((start, end)) && start <= end <= |lines| && Structural(lines, start, end) == ns
    requires JobBodiesOf(ns) == Ok(t) && AGGREGATOR in t.bodies && NeedsEntries(t.bodies[AGGREGATOR]) == Ok(needs)
    ensures ParseLines(lines) == Ok(Workflow(t.jobs, needs))
  {
  }

  /** The line of an entry may be dropped. */
  lemma EntryDrops(lines: seq<Shape>, less: seq<Shape>, start: nat, end: nat, ns: seq<Numbered>, p: nat, d: nat) returns (end1: nat)
    requires JobsSection(lines) == Ok((start, end)) && start <= end <= |lines| && ns == Structural(lines, start, end)
    requires 0 < p < |ns| && ns[p].no == d + 1 && start <= d < end && PlainLine(lines[d]) && !ns[p - 1].line.scalar
    requires less == Dropped(lines, d)
    ensures JobsSection(less) == Ok((start, end1)) && start <= end1 <= |less| && Structural(less, start, end1) == Cut(ns, d + 1)
  {
    end1 := end - 1;
    SectionDrop(lines, d);
    StructuralDrop(lines, d, start, end, p);
  }

  lemma EntryNumbers(ns: seq<Numbered>, lines: seq<Shape>, body: seq<Numbered>, x: Numbered)
    requires forall y :: y in ns ==> 0 < y.no <= |lines| && y.line == lines[y.no - 1]
    requires forall y :: y in body ==> y in ns
    requires Lexed(lines) && x in ns && IsEntry(x)
    ensures DeepAt(ns, x.no) && EntryAt(body, x.no) && PlainLine(lines[x.no - 1])
  {
    assert lines[x.no - 1] in lines;
    forall n | n in ns && n.no == x.no ensures n.line == x.line {
    }
  }

  lemma ReparseDropped(less: seq<Shape>, start: nat, end: nat, ns: seq<Numbered>, t: JobTable, body: seq<Numbered>,
                       w: Workflow, d: nat)
    requires JobBodiesOf(ns) == Ok(t) && AGGREGATOR in t.bodies && body == t.bodies[AGGREGATOR]
    requires NeedsEntries(body) == Ok(w.needs) && w.jobs == t.jobs && DeepAt(ns, d + 1) && EntryAt(body, d + 1)
    requires JobsSection(less) == Ok((start, end)) && start <= end <= |less| && Structural(less, start, end) == Cut(ns, d + 1)
    ensures ParseLines(less) == Ok(Workflow(Renumber(w.jobs, d + 1), CutEntries(w.needs, d + 1)))
  {
    JobBodiesCut(ns, d + 1);
    NeedsCut(body, d + 1);
    ParseIs(less, start, end, Cut(ns, d + 1), CutTable(t, d + 1), CutEntries(w.needs, d + 1));
  }

  lemma EntryNo(lines: seq<Shape>, start: nat, end: nat, ns: seq<Numbered>, body: seq<Numbered>, needs: seq<Entry>, r: nat)
      returns (p: nat, d: nat)
    requires Lexed(lines) && end <= |lines|
    requires forall y :: y in ns ==> start < y.no <= end && y.line == lines[y.no - 1]
    requires forall y :: y in body ==> y in ns
    requires BodyTogether(ns, body) && NeedsEntries(body) == Ok(needs) && r < |needs|
    ensures 0 < p < |ns| && ns[p].no == d + 1 && needs[r].line == d + 1 && start <= d < end
    ensures PlainLine(lines[d]) && !ns[p - 1].line.scalar
    ensures DeepAt(ns, d + 1) && EntryAt(body, d + 1)
  {
    forall y | y in ns ensures y.line in lines {
      assert lines[y.no - 1] in lines;
    }
    p := EntryLine(lines, ns, body, needs, r);
    assert ns[p] in ns;
    d := ns[p].no - 1;
    EntryNumbers(ns, lines, body, ns[p]);
  }

  /** Dropping an entry's line re-parses to the same jobs with exactly that entry gone. */
  lemma ParseDrop(lines: seq<Shape>, w: Workflow, r: nat) returns (d: nat)
    requires Lexed(lines) && ParseLines(lines) == Ok(w) && r < |w.needs|
    ensures d < |lines| && w.needs[r].line == d + 1
    ensures ParseLines(Dropped(lines, d)) == Ok(Workflow(Renumber(w.jobs, d + 1), CutEntries(w.needs, d + 1)))
  {
    var start, end, ns, t, body := BodyOfParse(lines, w);
    var p;
    p, d := EntryNo(lines, start, end, ns, body, w.needs, r);
    var end1 := EntryDrops(lines, Dropped(lines, d), start, end, ns, p, d);
    ReparseDropped(Dropped(lines, d), start, end1, ns, t, body, w, d);
  }

  // ------------------------------------------------------------------
  // The theorem
  // ------------------------------------------------------------------

  lemma {:induction false} CutNames(entries: seq<Entry>, e: Entry)
    requires Distinct(entries) && e in entries
    ensures e.name !in Names(CutEntries(entries, e.line))
  {
    var i :| 0 <= i < |entries| && entries[i] == e;
    if i == 0 {
      assert forall j :: 1 <= j < |entries| ==> entries[j].name != entries[0].name;
      NamesLeft(entries[1..], e);
    } else {
      assert entries[1..][i - 1] == e && entries[0].name != entries[i].name;
      CutNames(entries[1..], e);
      NamesFirst(Entry(entries[0].name, Earlier(entries[0].line, e.line)), CutEntries(entries[1..], e.line));
    }
  }

  lemma NamesFirst(first: Entry, rest: seq<Entry>)
    ensures Names([first] + rest) == {first.name} + Names(rest)
  {
  }

  lemma {:induction false} NamesLeft(entries: seq<Entry>, e: Entry)
    requires forall j :: 0 <= j < |entries| ==> entries[j].name != e.name
    ensures e.name !in Names(CutEntries(entries, e.line))
  {
    if entries != [] {
      NamesLeft(entries[1..], e);
      NamesFirst(Entry(entries[0].name, Earlier(entries[0].line, e.line)), CutEntries(entries[1..], e.line));
    }
  }

  /** A workflow without problems has one as soon as an entry is gone. */
  lemma CutWorkflowHasProblems(w: Workflow, r: nat, at: nat)
    requires Problems(w) == [] && r < |w.needs| && w.needs[r].line == at
    ensures Problems(Workflow(Renumber(w.jobs, at), CutEntries(w.needs, at))) != []
  {
    var e := w.needs[r];
    var w1 := Workflow(Renumber(w.jobs, at), CutEntries(w.needs, at));
    NoProblemsExactly(w);
    NoProblemsExactly(w1);
    CutNames(w.needs, e);
    SameNames(w.jobs, at);
    assert e in w.needs && e.name in Names(w.needs);
  }

  /** Dropping the line of an entry from the text leaves the same jobs, with exactly that entry gone. */
  lemma DropLineReparses(source: string, w: Workflow, r: nat) returns (d: nat)
    requires Parse(source) == Ok(w) && r < |w.needs|
    ensures w.needs[r].line == d + 1
    ensures Parse(DropLine(source, d + 1)) == Ok(Workflow(Renumber(w.jobs, d + 1), CutEntries(w.needs, d + 1)))
  {
    var lines := Lines(source).value;
    ShapesAreLexed(lines);
    d := ParseDrop(Shapes(lines), w, r);
    LinesDrop(source, d);
    ShapesDrop(lines, d);
  }

  /** Whatever the source text: when the check reports nothing, dropping the line of any `needs` entry is reported. */
  lemma EveryRemovalIsReported(source: string, w: Workflow, r: nat)
    requires Parse(source) == Ok(w) && Problems(w) == [] && r < |w.needs|
    ensures FindProblemsOf(DropLine(source, w.needs[r].line)).Ok?
    ensures FindProblemsOf(DropLine(source, w.needs[r].line)).value != []
  {
    var d := DropLineReparses(source, w, r);
    CutWorkflowHasProblems(w, r, d + 1);
    FoundIs(DropLine(source, d + 1), Workflow(Renumber(w.jobs, d + 1), CutEntries(w.needs, d + 1)));
  }

  lemma FoundIs(source: string, w: Workflow)
    requires Parse(source) == Ok(w)
    ensures FindProblemsOf(source) == Ok(Problems(w))
  {
  }

  lemma ShapesDrop(lines: seq<Line>, d: nat)
    requires d < |lines|
    ensures Shapes(Dropped(lines, d)) == Dropped(Shapes(lines), d)
  {
  }

  lemma SameNames(jobs: seq<Entry>, at: nat)
    ensures Names(Renumber(jobs, at)) == Names(jobs)
  {
    var again := Renumber(jobs, at);
    forall name | name in Names(jobs) ensures name in Names(again) {
      var j :| j in jobs && j.name == name;
      var i :| 0 <= i < |jobs| && jobs[i] == j;
      assert again[i] in again && again[i].name == name;
    }
    forall name | name in Names(again) ensures name in Names(jobs) {
      var j :| j in again && j.name == name;
      var i :| 0 <= i < |again| && again[i] == j;
      assert jobs[i] in jobs && jobs[i].name == name;
    }
  }

  lemma {:induction false} NothingUnreported(source: string, w: Workflow, entries: seq<Entry>)
    requires Parse(source) == Ok(w) && Problems(w) == [] && forall e :: e in entries ==> e in w.needs
    ensures UnreportedOf(source, entries) == Ok([])
  {
    if entries != [] {
      assert entries[0] in entries;
      var r :| 0 <= r < |w.needs| && w.needs[r] == entries[0];
      EveryRemovalIsReported(source, w, r);
      assert forall e :: e in entries[1..] ==> e in entries;
      NothingUnreported(source, w, entries[1..]);
    }
  }

  /** Soundness of the self-test: for every source text on which the check reports nothing, neither does the
      self-test, and it does have entries to remove. */
  lemma SelfTestPasses(source: string)
    requires FindProblemsOf(source) == Ok([])
    ensures SelfTestFailures(source) == Ok(Unreported([]))
  {
    var w := Parse(source).value;
    NoProblemsExactly(w);
    NothingUnreported(source, w, w.needs);
  }

  // ------------------------------------------------------------------
  // What the self-test reports
  // ------------------------------------------------------------------

  /** The entries on other lines. */
  function Without(needs: seq<Entry>, line: nat): seq<Entry> { Filter(needs, (x: Entry) => x.line != line) }

  /** There is another job, and each other job is listed once and nothing else is. */
  predicate Complete(jobs: seq<Entry>, needs: seq<Entry>) {
    Others(jobs) != {} && Names(needs) == Others(jobs) && Distinct(needs)
  }

  lemma {:induction false} CutIsRenumbered(needs: seq<Entry>, at: nat)
    ensures CutEntries(needs, at) == Renumber(Without(needs, at), at)
  {
    if needs != [] {
      CutIsRenumbered(needs[1..], at);
      if needs[0].line != at {
        RenumberFirst(needs[0], Without(needs[1..], at), at);
      }
    }
  }

  lemma RenumberFirst(first: Entry, rest: seq<Entry>, at: nat)
    ensures Renumber([first] + rest, at) == [Entry(first.name, Earlier(first.line, at))] + Renumber(rest, at)
  {
  }

  lemma RenumberedCompletes(jobs: seq<Entry>, needs: seq<Entry>, at: nat)
    ensures Complete(Renumber(jobs, at), Renumber(needs, at)) <==> Complete(jobs, needs)
  {
    SameNames(jobs, at);
    SameNames(needs, at);
    var again := Renumber(needs, at);
    assert forall i :: 0 <= i < |needs| ==> again[i].name == needs[i].name;
  }

  lemma CutCompletes(w: Workflow, at: nat)
    ensures Problems(Workflow(Renumber(w.jobs, at), CutEntries(w.needs, at))) == [] <==> Complete(w.jobs, Without(w.needs, at))
  {
    NoProblemsExactly(Workflow(Renumber(w.jobs, at), CutEntries(w.needs, at)));
    CutIsRenumbered(w.needs, at);
    RenumberedCompletes(w.jobs, Without(w.needs, at), at);
  }

  lemma DropFinds(source: string, w: Workflow, r: nat, at: nat)
    requires Parse(source) == Ok(w) && r < |w.needs| && at == w.needs[r].line
    ensures FindProblemsOf(DropLine(source, at)) == Ok(Problems(Workflow(Renumber(w.jobs, at), CutEntries(w.needs, at))))
  {
    var d := DropLineReparses(source, w, r);
    FoundIs(DropLine(source, at), Workflow(Renumber(w.jobs, at), CutEntries(w.needs, at)));
  }

  /** Dropping an entry's line goes unreported exactly when the list without it is complete. */
  lemma RemovalExactly(source: string, w: Workflow, r: nat, at: nat)
    requires Parse(source) == Ok(w) && r < |w.needs| && at == w.needs[r].line
    ensures var found := FindProblemsOf(DropLine(source, at));
      found.Ok? && (found.value == [] <==> Complete(w.jobs, Without(w.needs, at)))
  {
    DropFinds(source, w, r, at);
    CutCompletes(w, at);
  }

  lemma {:induction false} UnreportedExactly(source: string, w: Workflow, entries: seq<Entry>)
    requires Parse(source) == Ok(w) && forall e :: e in entries ==> e in w.needs
    ensures UnreportedOf(source, entries) == Ok(Filter(entries, (e: Entry) => Complete(w.jobs, Without(w.needs, e.line))))
  {
    if entries != [] {
      assert entries[0] in entries;
      var r :| 0 <= r < |w.needs| && w.needs[r] == entries[0];
      RemovalExactly(source, w, r, entries[0].line);
      assert forall e :: e in entries[1..] ==> e in entries;
      UnreportedExactly(source, w, entries[1..]);
    }
  }

  /** For every text that parses, the self-test finishes and names, in order, exactly the entries without which the list
      would be complete. */
  lemma SelfTestExactly(source: string, w: Workflow)
    requires Parse(source) == Ok(w)
    ensures SelfTestFailures(source) == Ok(
      if w.needs == [] then NothingToRemove
      else Unreported(Filter(w.needs, (e: Entry) => Complete(w.jobs, Without(w.needs, e.line)))))
  {
    UnreportedExactly(source, w, w.needs);
  }
}
