/** What every text is read as: the parser accepts exactly the texts that read as a workflow, and returns that workflow.
    The reading is said line by line, without the parser's loops. */
module RequiredNeedsReading {
  import opened Prelude
  import opened RequiredNeeds
  import opened RequiredNeedsSelfTest
  import opened RequiredNeedsDrop

  // ------------------------------------------------------------------
  // The lines that carry structure
  // ------------------------------------------------------------------

  predicate Deeper(ss: seq<Shape>, q: nat, m: nat)
    requires q < |ss| && m < |ss|
  {
    ss[m].blank || ss[m].indent > ss[q].indent
  }

  /** Line `p` carries structure, reading from line `start`: it is neither blank nor a comment, and no block scalar that
      carries structure itself has all lines from it to `p` blank or deeper than its key. */
  ghost predicate Kept(ss: seq<Shape>, start: nat, p: nat)
    requires p < |ss|
    decreases p
  {
    && start <= p && !ss[p].ignored
    && !exists q: nat :: q < p && Kept(ss, start, q) && ss[q].scalar && forall m: nat :: q < m <= p ==> Deeper(ss, q, m)
  }

  /** The lines of a block scalar's body are blank or deeper than its key; the first line after them is neither. */
  lemma {:induction false} SkipBodyExactly(ss: seq<Shape>, i: nat, end: nat, indent: nat, j: nat)
    requires i <= j <= end <= |ss|
    ensures SkipBody(ss, i, end, indent) == j <==>
      && (forall m: nat :: i <= m < j ==> ss[m].blank || ss[m].indent > indent)
      && (j < end ==> !ss[j].blank && ss[j].indent <= indent)
    decreases end - i
  {
    if i < end && (ss[i].blank || ss[i].indent > indent) && i < j {
      SkipBodyExactly(ss, i + 1, end, indent, j);
    }
  }

  /** Between `i` and `next` nothing else carries structure, and no scalar from there reaches `next`. */
  predicate Leads(ss: seq<Shape>, i: nat, next: nat, end: nat)
    requires i < next <= end <= |ss|
  {
    if ss[i].ignored then next == i + 1
    else if !ss[i].scalar then next == i + 1
    else (forall m: nat :: i < m < next ==> Deeper(ss, i, m)) && (next < end ==> !Deeper(ss, i, next))
  }

  lemma SkippedIsNotKept(ss: seq<Shape>, i: nat, next: nat, end: nat, p: nat)
    requires i < next <= end <= |ss| && Leads(ss, i, next, end) && i < p < next
    ensures !Kept(ss, i, p)
  {
    assert Kept(ss, i, i);
    assert forall m: nat :: i < m <= p ==> Deeper(ss, i, m);
  }

  /** From the next visited line on it makes no difference where the reading started. */
  lemma {:induction false} KeptLater(ss: seq<Shape>, i: nat, next: nat, end: nat, p: nat)
    requires i < next <= p < end <= |ss| && Leads(ss, i, next, end)
    ensures Kept(ss, i, p) <==> Kept(ss, next, p)
    decreases p
  {
    forall q: nat | q < p && ss[q].scalar && forall m: nat :: q < m <= p ==> Deeper(ss, q, m)
      ensures Kept(ss, i, q) <==> Kept(ss, next, q)
    {
      if q == i {
        assert Deeper(ss, i, next);
      } else if i < q < next {
        SkippedIsNotKept(ss, i, next, end, q);
      } else if next <= q {
        KeptLater(ss, i, next, end, q);
      }
    }
  }

  /** This line of the text, under its number. */
  ghost predicate KeptLine(ss: seq<Shape>, i: nat, end: nat, y: Numbered)
    requires end <= |ss|
  {
    i < y.no <= end && Kept(ss, i, y.no - 1) && y.line == ss[y.no - 1]
  }

  function NoOf(n: Numbered): nat { n.no }
  function LineOf(e: Entry): nat { e.line }

  predicate RisingBy<T>(s: seq<T>, key: T -> nat) { forall k, l :: 0 <= k < l < |s| ==> key(s[k]) < key(s[l]) }

  predicate Rising(ns: seq<Numbered>) { RisingBy(ns, NoOf) }

  /** These are, in order, exactly the lines from `i` to `end` that carry structure. */
  ghost predicate KeptLines(ss: seq<Shape>, i: nat, end: nat, ns: seq<Numbered>)
    requires end <= |ss|
  {
    Rising(ns) && forall y :: y in ns <==> KeptLine(ss, i, end, y)
  }

  lemma VisitLeads(ss: seq<Shape>, i: nat, end: nat) returns (next: nat)
    requires i < end <= |ss|
    ensures i < next <= end && Leads(ss, i, next, end)
    ensures Structural(ss, i, end) ==
      if ss[i].ignored then Structural(ss, next, end) else [Numbered(i + 1, ss[i])] + Structural(ss, next, end)
  {
    StructuralVisit(ss, i, end);
    next := if ss[i].ignored then i + 1 else AfterLine(ss, i, end);
    if !ss[i].ignored && ss[i].scalar {
      SkipBodyExactly(ss, i + 1, end, ss[i].indent, next);
    }
  }

  lemma KeptFirst(ss: seq<Shape>, i: nat, next: nat, end: nat, y: Numbered)
    requires i < next <= end <= |ss| && Leads(ss, i, next, end)
    ensures KeptLine(ss, i, end, y) <==> (!ss[i].ignored && y == Numbered(i + 1, ss[i])) || KeptLine(ss, next, end, y)
  {
    if y.no == i + 1 {
      assert Kept(ss, i, i) <==> !ss[i].ignored;
      assert y == Numbered(y.no, y.line);
    } else if i + 1 < y.no <= next {
      SkippedIsNotKept(ss, i, next, end, y.no - 1);
    } else if next < y.no <= end {
      KeptLater(ss, i, next, end, y.no - 1);
    }
  }

  lemma KeptPrepends(ss: seq<Shape>, i: nat, next: nat, end: nat, rest: seq<Numbered>, ns: seq<Numbered>)
    requires i < next <= end <= |ss| && Leads(ss, i, next, end) && KeptLines(ss, next, end, rest)
    requires ns == if ss[i].ignored then rest else [Numbered(i + 1, ss[i])] + rest
    ensures KeptLines(ss, i, end, ns)
  {
    forall y ensures y in ns <==> KeptLine(ss, i, end, y) {
      KeptFirst(ss, i, next, end, y);
    }
    if !ss[i].ignored {
      assert forall y :: y in rest ==> KeptLine(ss, next, end, y);
      RisingPrepends(Numbered(i + 1, ss[i]), rest, NoOf);
    }
  }

  lemma RisingPrepends<T>(x: T, rest: seq<T>, key: T -> nat)
    requires RisingBy(rest, key) && forall y :: y in rest ==> key(x) < key(y)
    ensures RisingBy([x] + rest, key)
  {
    var s := [x] + rest;
    forall k, l | 0 <= k < l < |s| ensures key(s[k]) < key(s[l]) {
      assert s[l] == rest[l - 1] && rest[l - 1] in rest;
      assert k > 0 ==> s[k] == rest[k - 1];
    }
  }

  /** The parser's skipping of comments and block scalars keeps exactly these lines. */
  lemma {:induction false} StructuralExactly(ss: seq<Shape>, i: nat, end: nat)
    requires i <= end <= |ss|
    ensures KeptLines(ss, i, end, Structural(ss, i, end))
    decreases end - i
  {
    if i < end {
      var next := VisitLeads(ss, i, end);
      StructuralExactly(ss, next, end);
      KeptPrepends(ss, i, next, end, Structural(ss, next, end), Structural(ss, i, end));
    }
  }

  lemma {:induction false} RisingUnique<T>(a: seq<T>, b: seq<T>, key: T -> nat)
    requires RisingBy(a, key) && RisingBy(b, key) && forall y :: y in a <==> y in b
    ensures a == b
    decreases |a|
  {
    if a == [] {
      if b != [] {
        var y := AnElement(b);
        assert false;
      }
    } else {
      assert a[0] in a && a[0] in b;
      assert b[0] in b && b[0] in a;
      FirstIsLeast(a, b[0], key);
      FirstIsLeast(b, a[0], key);
      forall y ensures y in a[1..] <==> y in b[1..] {
        TailHolds(a, y, key);
        TailHolds(b, y, key);
      }
      RisingUnique(a[1..], b[1..], key);
    }
  }

  lemma AnElement<T>(b: seq<T>) returns (y: T)
    requires b != []
    ensures y in b
  {
    y := b[0];
  }

  lemma FirstIsLeast<T>(a: seq<T>, y: T, key: T -> nat)
    requires RisingBy(a, key) && y in a
    ensures a[0] == y || key(a[0]) < key(y)
  {
  }

  lemma TailHolds<T>(a: seq<T>, y: T, key: T -> nat)
    requires a != [] && RisingBy(a, key)
    ensures y in a[1..] <==> y in a && y != a[0]
  {
  }

  // ------------------------------------------------------------------
  // The jobs and their bodies
  // ------------------------------------------------------------------

  /** A job header at two spaces, and a line at four spaces or more. */
  predicate HeadLine(n: Numbered) { !n.line.tab && n.line.indent == 2 && n.line.header != "" }
  predicate BodyLine(n: Numbered) { !n.line.tab && n.line.indent >= 4 }

  function HeadEntry(n: Numbered): Entry { Entry(n.line.header, n.no) }

  predicate HeadAt(ns: seq<Numbered>, k: nat) { k < |ns| && HeadLine(ns[k]) }

  /** Headers with different names, each with its body behind it, and nothing before the first. */
  ghost predicate JobLines(ns: seq<Numbered>) {
    && (forall k: nat :: k < |ns| ==> HeadAt(ns, k) || (k > 0 && BodyLine(ns[k])))
    && (forall j: nat, k: nat :: j < k && HeadAt(ns, j) && HeadAt(ns, k) ==> ns[j].line.header != ns[k].line.header)
  }

  ghost predicate IsJob(ns: seq<Numbered>, e: Entry) { exists k: nat :: HeadAt(ns, k) && e == HeadEntry(ns[k]) }

  /** The lines behind header `k` up to the next header. */
  ghost predicate BodyOf(ns: seq<Numbered>, k: nat, body: seq<Numbered>)
    requires k < |ns|
  {
    exists m: nat :: BodyEnds(ns, k, m) && body == ns[k + 1..m]
  }

  predicate BodyEnds(ns: seq<Numbered>, k: nat, m: nat) {
    k < m <= |ns| && (forall q: nat :: k < q < m ==> BodyLine(ns[q])) && (m < |ns| ==> HeadLine(ns[m]))
  }

  /** The jobs in the order of their lines, each with its body. */
  ghost predicate TableOf(ns: seq<Numbered>, t: JobTable) {
    && JobLines(ns)
    && RisingBy(t.jobs, LineOf) && (forall e :: e in t.jobs <==> IsJob(ns, e))
    && (forall name :: name in t.bodies ==> exists k: nat :: HeadAt(ns, k) && ns[k].line.header == name)
    && BodiesOf(ns, t.bodies)
  }

  ghost predicate BodiesOf(ns: seq<Numbered>, bodies: map<string, seq<Numbered>>) {
    forall k: nat :: HeadAt(ns, k) ==> ns[k].line.header in bodies && BodyOf(ns, k, bodies[ns[k].line.header])
  }

  /** The job a body line belongs to. */
  lemma LastJob(ns: seq<Numbered>, t: JobTable) returns (h: nat)
    requires TableOf(ns, t) && Rising(ns) && ns != []
    ensures HeadAt(ns, h) && t.jobs != [] && t.jobs[|t.jobs| - 1] == HeadEntry(ns[h]) && BodyEnds(ns, h, |ns|)
  {
    assert HeadAt(ns, 0);
    h := LastHead(ns, t.jobs, HeadEntry(ns[0]));
    forall q: nat | h < q < |ns| ensures BodyLine(ns[q]) {
      assert HeadAt(ns, q) || BodyLine(ns[q]);
      NoLaterHead(ns, t.jobs, h, q);
    }
  }

  lemma LastHead(ns: seq<Numbered>, jobs: seq<Entry>, first: Entry) returns (h: nat)
    requires IsJob(ns, first) && forall e :: e in jobs <==> IsJob(ns, e)
    ensures HeadAt(ns, h) && jobs != [] && jobs[|jobs| - 1] == HeadEntry(ns[h])
  {
    assert first in jobs;
    var last := jobs[|jobs| - 1];
    assert last in jobs;
    h :| HeadAt(ns, h) && last == HeadEntry(ns[h]);
  }

  lemma NoLaterHead(ns: seq<Numbered>, jobs: seq<Entry>, h: nat, q: nat)
    requires h < q < |ns| && Rising(ns) && RisingBy(jobs, LineOf) && jobs != [] && jobs[|jobs| - 1] == HeadEntry(ns[h])
    requires forall e :: e in jobs <==> IsJob(ns, e)
    ensures !HeadAt(ns, q)
  {
    var e := HeadEntry(ns[q]);
    assert HeadAt(ns, q) ==> IsJob(ns, e);
    assert NoOf(ns[h]) < NoOf(ns[q]);
    NothingBeyondLast(jobs, e, LineOf);
  }

  lemma NothingBeyondLast<T>(s: seq<T>, y: T, key: T -> nat)
    requires RisingBy(s, key) && s != [] && key(s[|s| - 1]) < key(y)
    ensures y !in s
  {
  }

  lemma BodyEndsOnce(ns: seq<Numbered>, k: nat, a: nat, b: nat)
    requires BodyEnds(ns, k, a) && BodyEnds(ns, k, b)
    ensures a == b
  {
  }

  /** Bodies of earlier jobs stay, the last one's grows, when a body line comes. */
  lemma BodyOneMore(before: seq<Numbered>, n: Numbered, k: nat, m: nat)
    requires BodyEnds(before, k, m) && (BodyLine(n) || HeadLine(n)) && (m == |before| || HeadAt(before, m))
    ensures BodyEnds(before + [n], k, if m == |before| && BodyLine(n) then m + 1 else m)
  {
    var ns := before + [n];
    assert forall q: nat :: q < |before| ==> ns[q] == before[q];
  }

  lemma HeadsOneMore(before: seq<Numbered>, n: Numbered, k: nat)
    ensures HeadAt(before + [n], k) <==> HeadAt(before, k) || (k == |before| && HeadLine(n))
    ensures k < |before| ==> (before + [n])[k] == before[k]
  {
  }

  lemma JobLinesOneMore(before: seq<Numbered>, n: Numbered)
    ensures JobLines(before + [n]) <==>
      && JobLines(before) && (HeadLine(n) || (before != [] && BodyLine(n)))
      && (HeadLine(n) ==> forall j: nat :: HeadAt(before, j) ==> before[j].line.header != n.line.header)
  {
    var ns := before + [n];
    forall k: nat ensures HeadAt(ns, k) <==> HeadAt(before, k) || (k == |before| && HeadLine(n)) {
      HeadsOneMore(before, n, k);
    }
    assert forall k: nat :: k < |before| ==> ns[k] == before[k];
    assert ns[|before|] == n;
    if JobLines(ns) {
      assert HeadAt(ns, |before|) || (|before| > 0 && BodyLine(ns[|before|]));
      forall k: nat | k < |before| ensures HeadAt(before, k) || (k > 0 && BodyLine(before[k])) {
        assert HeadAt(ns, k) || (k > 0 && BodyLine(ns[k]));
      }
    }
  }

  lemma IsJobOneMore(before: seq<Numbered>, n: Numbered, e: Entry)
    ensures IsJob(before + [n], e) <==> IsJob(before, e) || (HeadLine(n) && e == HeadEntry(n))
  {
    var ns := before + [n];
    forall k: nat ensures HeadAt(ns, k) <==> HeadAt(before, k) || (k == |before| && HeadLine(n)) {
      HeadsOneMore(before, n, k);
    }
    assert forall k: nat :: k < |before| ==> ns[k] == before[k];
    if HeadLine(n) {
      assert HeadAt(ns, |before|) && ns[|before|] == n;
    }
    if IsJob(before, e) {
      var k: nat :| HeadAt(before, k) && e == HeadEntry(before[k]);
      assert HeadAt(ns, k) && e == HeadEntry(ns[k]);
    }
    if IsJob(ns, e) {
      var k: nat :| HeadAt(ns, k) && e == HeadEntry(ns[k]);
      assert k < |before| ==> HeadAt(before, k) && e == HeadEntry(before[k]);
    }
  }

  /** What earlier jobs' bodies become. */
  lemma EarlierBody(before: seq<Numbered>, n: Numbered, k: nat, body: seq<Numbered>)
    requires HeadAt(before, k) && BodyOf(before, k, body) && (HeadLine(n) || BodyLine(n))
    ensures BodyOf(before + [n], k, if BodyEnds(before, k, |before|) && BodyLine(n) then body + [n] else body)
  {
    var ns := before + [n];
    var m: nat :| BodyEnds(before, k, m) && body == before[k + 1..m];
    if BodyEnds(before, k, |before|) {
      BodyEndsOnce(before, k, m, |before|);
    }
    BodyOneMore(before, n, k, m);
    var m1 := if m == |before| && BodyLine(n) then m + 1 else m;
    assert BodyEnds(ns, k, m1);
    assert ns[k + 1..m] == before[k + 1..m];
    assert m == |before| ==> ns[k + 1..m + 1] == before[k + 1..m] + [n];
  }

  lemma HeaderTable(before: seq<Numbered>, n: Numbered, t: JobTable)
    requires TableOf(before, t) && JobLines(before + [n]) && Rising(before + [n]) && HeadLine(n)
    ensures AddLine(t, n).Ok? && TableOf(before + [n], AddLine(t, n).value)
  {
    var ns := before + [n];
    JobLinesOneMore(before, n);
    assert n.line.header !in t.bodies;
    var t1 := AddLine(t, n).value;
    assert t1 == JobTable(t.jobs + [HeadEntry(n)], t.bodies[n.line.header := []]);
    forall e ensures e in t1.jobs <==> IsJob(ns, e) {
      IsJobOneMore(before, n, e);
    }
    forall e | e in t.jobs ensures e.line < n.no {
      var k: nat :| HeadAt(before, k) && e == HeadEntry(before[k]);
      assert ns[k] == before[k] && ns[|before|] == n;
    }
    forall k: nat | HeadAt(ns, k) ensures ns[k].line.header in t1.bodies && BodyOf(ns, k, t1.bodies[ns[k].line.header]) {
      HeadsOneMore(before, n, k);
      if k == |before| {
        assert BodyEnds(ns, k, |ns|) && ns[k + 1..|ns|] == [];
      } else {
        EarlierBody(before, n, k, t.bodies[before[k].line.header]);
      }
    }
    NamesKnown(before, n, t, t1);
  }

  lemma NamesKnown(before: seq<Numbered>, n: Numbered, t: JobTable, t1: JobTable)
    requires TableOf(before, t) && forall name :: name in t1.bodies ==> name in t.bodies || (HeadLine(n) && name == n.line.header)
    ensures forall name :: name in t1.bodies ==> exists k: nat :: HeadAt(before + [n], k) && (before + [n])[k].line.header == name
  {
    var ns := before + [n];
    forall name | name in t1.bodies ensures exists k: nat :: HeadAt(ns, k) && ns[k].line.header == name {
      if name in t.bodies {
        var k: nat :| HeadAt(before, k) && before[k].line.header == name;
        HeadsOneMore(before, n, k);
        assert HeadAt(ns, k) && ns[k].line.header == name;
      } else {
        HeadsOneMore(before, n, |before|);
        assert HeadAt(ns, |before|) && ns[|before|].line.header == name;
      }
    }
  }

  lemma BodyTable(before: seq<Numbered>, n: Numbered, t: JobTable)
    requires TableOf(before, t) && JobLines(before + [n]) && Rising(before) && before != [] && BodyLine(n)
    ensures AddLine(t, n).Ok? && TableOf(before + [n], AddLine(t, n).value)
  {
    var h := LastJob(before, t);
    var name := before[h].line.header;
    assert name in t.bodies;
    var bodies := t.bodies[name := t.bodies[name] + [n]];
    assert AddLine(t, n) == Ok(JobTable(t.jobs, bodies));
    forall e ensures e in t.jobs <==> IsJob(before + [n], e) {
      IsJobOneMore(before, n, e);
    }
    BodiesLengthen(before, n, t, h, bodies);
    NamesKnown(before, n, t, JobTable(t.jobs, bodies));
  }

  lemma BodiesLengthen(before: seq<Numbered>, n: Numbered, t: JobTable, h: nat, bodies: map<string, seq<Numbered>>)
    requires TableOf(before, t) && BodyLine(n) && HeadAt(before, h) && BodyEnds(before, h, |before|)
    requires before[h].line.header in t.bodies
    requires bodies == t.bodies[before[h].line.header := t.bodies[before[h].line.header] + [n]]
    ensures BodiesOf(before + [n], bodies)
  {
    var ns := before + [n];
    forall k: nat | HeadAt(ns, k) ensures ns[k].line.header in bodies && BodyOf(ns, k, bodies[ns[k].line.header]) {
      HeadsOneMore(before, n, k);
      BodyLengthens(before, n, t, h, k);
    }
  }

  lemma BodyLengthens(before: seq<Numbered>, n: Numbered, t: JobTable, h: nat, k: nat)
    requires TableOf(before, t) && BodyLine(n) && HeadAt(before, h) && HeadAt(before, k) && BodyEnds(before, h, |before|)
    ensures before[k].line.header in t.bodies
    ensures BodyOf(before + [n], k,
      if before[k].line.header == before[h].line.header then t.bodies[before[k].line.header] + [n]
      else t.bodies[before[k].line.header])
  {
    EarlierBody(before, n, k, t.bodies[before[k].line.header]);
    LastHeadOnly(before, h, k);
  }

  lemma LastHeadOnly(ns: seq<Numbered>, h: nat, k: nat)
    requires JobLines(ns) && HeadAt(ns, h) && HeadAt(ns, k) && BodyEnds(ns, h, |ns|)
    ensures BodyEnds(ns, k, |ns|) <==> k == h
    ensures ns[k].line.header == ns[h].line.header <==> k == h
  {
  }

  /** The parser's table is built exactly from well-laid job lines, and is their table. */
  lemma {:induction false} TableExactly(ns: seq<Numbered>)
    requires Rising(ns)
    ensures JobBodiesOf(ns).Ok? <==> JobLines(ns)
    ensures JobBodiesOf(ns).Ok? ==> TableOf(ns, JobBodiesOf(ns).value)
    decreases |ns|
  {
    if ns != [] {
      var before, n := ns[..|ns| - 1], ns[|ns| - 1];
      assert ns == before + [n];
      TableExactly(before);
      JobBodiesPush(before, n);
      JobLinesOneMore(before, n);
      if JobLines(ns) {
        if HeadLine(n) {
          HeaderTable(before, n, JobBodiesOf(before).value);
        } else {
          BodyTable(before, n, JobBodiesOf(before).value);
        }
      } else if JobLines(before) {
        Refused(before, n, JobBodiesOf(before).value);
      }
    }
  }

  lemma Refused(before: seq<Numbered>, n: Numbered, t: JobTable)
    requires TableOf(before, t) && Rising(before) && !JobLines(before + [n])
    ensures AddLine(t, n).Err?
  {
    JobLinesOneMore(before, n);
    if before != [] {
      var h := LastJob(before, t);
    } else {
      NoJobsYet(t);
    }
  }

  lemma NoJobsYet(t: JobTable)
    requires TableOf([], t)
    ensures t.jobs == []
  {
    if t.jobs != [] {
      var e := AnElement(t.jobs);
      assert false;
    }
  }

  /** There is one table of given lines. */
  lemma OneTable(ns: seq<Numbered>, a: JobTable, b: JobTable)
    requires TableOf(ns, a) && TableOf(ns, b)
    ensures a == b
  {
    assert forall e :: e in a.jobs <==> e in b.jobs;
    RisingUnique(a.jobs, b.jobs, LineOf);
    forall name | name in a.bodies ensures name in b.bodies && a.bodies[name] == b.bodies[name] {
      SameBody(ns, a, b, name);
    }
    forall name | name in b.bodies ensures name in a.bodies {
      SameBody(ns, b, a, name);
    }
    assert a.bodies == b.bodies;
  }

  lemma SameBody(ns: seq<Numbered>, a: JobTable, b: JobTable, name: string)
    requires TableOf(ns, a) && TableOf(ns, b) && name in a.bodies
    ensures name in b.bodies && a.bodies[name] == b.bodies[name]
  {
    var k: nat :| HeadAt(ns, k) && ns[k].line.header == name;
    assert BodyOf(ns, k, a.bodies[name]) && BodyOf(ns, k, b.bodies[name]);
    var m: nat :| BodyEnds(ns, k, m) && a.bodies[name] == ns[k + 1..m];
    var m1: nat :| BodyEnds(ns, k, m1) && b.bodies[name] == ns[k + 1..m1];
    BodyEndsOnce(ns, k, m, m1);
  }

  // ------------------------------------------------------------------
  // The needs list
  // ------------------------------------------------------------------

  /** No tabs, and an unquoted key on every line at four spaces. */
  predicate KeyedBody(body: seq<Numbered>) {
    forall n :: n in body ==> !n.line.tab && (n.line.indent == 4 ==> n.line.bodyKey)
  }

  /** The entries are the items the lines begin with, up to the end or a line at four spaces or less. */
  predicate ItemBlock(rest: seq<Numbered>, es: seq<Entry>) {
    && |es| <= |rest|
    && (forall r: nat :: r < |es| ==> rest[r].line.indent > 4 && rest[r].line.item != "" && es[r] == EntryOf(rest[r]))
    && (|es| < |rest| ==> rest[|es|].line.indent <= 4)
  }

  /** The only `needs` key of the body is on line `k`, heads a block list, and the list has these entries. */
  predicate NeedsBlock(body: seq<Numbered>, k: nat, es: seq<Entry>) {
    && k < |body| && body[k].line.needsKey
    && (forall i: nat :: i < |body| ==> (body[i].line.needsLike <==> i == k))
    && ItemBlock(body[k + 1..], es)
  }

  ghost predicate NeedsOf(body: seq<Numbered>, es: seq<Entry>) { KeyedBody(body) && exists k: nat :: NeedsBlock(body, k, es) }

  lemma {:induction false} BodyErrorExactly(body: seq<Numbered>)
    ensures BodyError(body).Ok? <==> KeyedBody(body)
  {
    if body != [] {
      BodyErrorExactly(body[1..]);
      assert forall n :: n in body <==> n == body[0] || n in body[1..];
    }
  }

  lemma {:induction false} ItemsExactly(rest: seq<Numbered>, es: seq<Entry>)
    requires forall n :: n in rest ==> !n.line.tab
    ensures ItemsFrom(rest) == Ok(es) <==> ItemBlock(rest, es)
  {
    if rest != [] {
      assert rest[0] in rest && forall n :: n in rest[1..] ==> n in rest;
      if es == [] {
        assert ItemAt(rest[0]).Ok? && ItemAt(rest[0]).value.None? <==> rest[0].line.indent <= 4;
      } else {
        ItemsExactly(rest[1..], es[1..]);
        ItemsLater(rest, es);
        assert IsEntry(rest[0]) <==> rest[0].line.indent > 4 && rest[0].line.item != "";
        ItemsFirst(rest, es);
      }
    }
  }

  lemma ItemsFirst(rest: seq<Numbered>, es: seq<Entry>)
    requires rest != [] && es != []
    ensures ItemsFrom(rest) == Ok(es) <==> IsEntry(rest[0]) && es[0] == EntryOf(rest[0]) && ItemsFrom(rest[1..]) == Ok(es[1..])
  {
    if IsEntry(rest[0]) && ItemsFrom(rest[1..]).Ok? {
      var later := ItemsFrom(rest[1..]).value;
      assert ([EntryOf(rest[0])] + later)[1..] == later;
      assert es == [es[0]] + es[1..];
    }
  }

  lemma ItemsLater(rest: seq<Numbered>, es: seq<Entry>)
    requires rest != [] && es != []
    ensures ItemBlock(rest, es) <==>
      rest[0].line.indent > 4 && rest[0].line.item != "" && es[0] == EntryOf(rest[0]) && ItemBlock(rest[1..], es[1..])
  {
    if ItemBlock(rest[1..], es[1..]) {
      forall r: nat | 0 < r < |es| ensures rest[r].line.indent > 4 && rest[r].line.item != "" && es[r] == EntryOf(rest[r]) {
        assert rest[1..][r - 1] == rest[r] && es[1..][r - 1] == es[r];
      }
    }
    if ItemBlock(rest, es) {
      forall r: nat | r < |es[1..]|
        ensures rest[1..][r].line.indent > 4 && rest[1..][r].line.item != "" && es[1..][r] == EntryOf(rest[1..][r])
      {
        assert rest[1..][r] == rest[r + 1] && es[1..][r] == es[r + 1];
      }
    }
  }

  /** The entries found are those of the one block list. */
  lemma NeedsExactly(body: seq<Numbered>, es: seq<Entry>)
    ensures NeedsEntries(body) == Ok(es) <==> NeedsOf(body, es)
  {
    BodyErrorExactly(body);
    if NeedsEntries(body) == Ok(es) {
      var k := NeedsKeyAt(body);
      TextsAt(body);
      assert forall n :: n in body[k + 1..] ==> n in body;
      ItemsExactly(body[k + 1..], es);
      assert NeedsBlock(body, k, es);
    }
    if NeedsOf(body, es) {
      var k: nat :| NeedsBlock(body, k, es);
      TextsAt(body);
      NeedsAre(body, k);
      assert forall n :: n in body[k + 1..] ==> n in body;
      ItemsExactly(body[k + 1..], es);
    }
  }

  lemma TextsAt(body: seq<Numbered>)
    ensures |Texts(body)| == |body| && forall i :: 0 <= i < |body| ==> LikeNeeds(Texts(body)[i]) == body[i].line.needsLike
  {
  }

  // ------------------------------------------------------------------
  // The text
  // ------------------------------------------------------------------

  /** The section from line `start` on belongs to the one `jobs` key, on the line before, up to the next top-level line. */
  predicate SectionOf(ss: seq<Shape>, start: nat, end: nat) {
    && 0 < start <= end <= |ss|
    && (forall i: nat :: i < |ss| ==> (ss[i].jobsLike <==> i == start - 1)) && ss[start - 1].jobsKey
    && (forall i: nat :: start <= i < end ==> !ss[i].top) && (end < |ss| ==> ss[end].top && ss[end].topKey)
  }

  lemma SectionExactly(ss: seq<Shape>, start: nat, end: nat)
    ensures JobsSection(ss) == Ok((start, end)) <==> SectionOf(ss, start, end)
  {
    if JobsSection(ss) == Ok((start, end)) {
      var k, e := SectionAt(ss);
      assert forall i :: 0 <= i < |ss| ==> LikeJobs(ss[i]) == ss[i].jobsLike && Top(ss[i]) == ss[i].top;
    }
    if SectionOf(ss, start, end) {
      assert forall i :: 0 <= i < |ss| ==> LikeJobs(ss[i]) == ss[i].jobsLike && Top(ss[i]) == ss[i].top;
      SectionIs(ss, start - 1, end);
    }
  }

  /** The workflow the lines read as, through its section, its structural lines and its job table. */
  ghost predicate ReadsThrough(ss: seq<Shape>, w: Workflow, start: nat, end: nat, ns: seq<Numbered>, t: JobTable) {
    && SectionOf(ss, start, end) && KeptLines(ss, start, end, ns) && TableOf(ns, t)
    && w.jobs == t.jobs && AGGREGATOR in t.bodies && NeedsOf(t.bodies[AGGREGATOR], w.needs)
  }

  ghost predicate ReadsAs(ss: seq<Shape>, w: Workflow) {
    exists start: nat, end: nat, ns: seq<Numbered>, t: JobTable :: ReadsThrough(ss, w, start, end, ns, t)
  }

  lemma LinesParseExactly(ss: seq<Shape>, w: Workflow)
    ensures ParseLines(ss) == Ok(w) <==> ReadsAs(ss, w)
  {
    if ParseLines(ss) == Ok(w) {
      var start, end, ns, t, body := BodyOfParse(ss, w);
      SectionExactly(ss, start, end);
      StructuralExactly(ss, start, end);
      TableExactly(ns);
      NeedsExactly(body, w.needs);
      assert ReadsThrough(ss, w, start, end, ns, t);
    }
    if ReadsAs(ss, w) {
      var start: nat, end: nat, ns: seq<Numbered>, t: JobTable :| ReadsThrough(ss, w, start, end, ns, t);
      SectionExactly(ss, start, end);
      StructuralExactly(ss, start, end);
      RisingUnique(ns, Structural(ss, start, end), NoOf);
      TableExactly(ns);
      OneTable(ns, t, JobBodiesOf(ns).value);
      NeedsExactly(t.bodies[AGGREGATOR], w.needs);
      ParseIs(ss, start, end, ns, t, w.needs);
    }
  }

  /** The characters that Python's `splitlines` breaks on. */
  predicate Breaks(c: char) {
    '\n' <= c <= '\r' || '\U{1c}' <= c <= '\U{1e}' || c == '\U{85}' || c == '\U{2028}' || c == '\U{2029}'
  }

  predicate Plain(line: Line) { forall i :: 0 <= i < |line| ==> !Breaks(line[i]) }

  /** Each line with one of the two accepted line ends; the last may go without when it is not empty. */
  predicate PiecesOfLines(pieces: seq<string>, lines: seq<Line>) {
    && |pieces| == |lines|
    && forall i :: 0 <= i < |lines| ==> Plain(lines[i]) && PieceOfLine(pieces[i], lines[i], i == |lines| - 1)
  }

  predicate PieceOfLine(piece: string, line: Line, last: bool) {
    piece == line + "\n" || piece == line + "\r\n" || (last && line != "" && piece == line)
  }

  ghost predicate BreaksInto(source: string, lines: seq<Line>) {
    exists pieces: seq<string> :: source == Join(pieces) && PiecesOfLines(pieces, lines)
  }

  predicate WellEnded(piece: string, last: bool) {
    piece != "" && if last then Span(piece, c => c != '\n') >= |piece| - 1 else WholePiece(piece)
  }

  lemma PieceIs(piece: string, line: Line, last: bool)
    requires Plain(line) && PieceOfLine(piece, line, last)
    ensures WellEnded(piece, last) && !HasForeign(piece) && Chomp(piece) == line
  {
    if piece == line + "\r\n" {
      SpanIs(piece, c => c != '\n', |line| + 1);
      assert piece[..|piece| - 1] == line + "\r" && (line + "\r")[..|line|] == line;
    } else if piece == line + "\n" {
      SpanIs(piece, c => c != '\n', |line|);
      assert piece[..|piece| - 1] == line;
      assert line != [] ==> !Breaks(line[|line| - 1]);
    } else {
      SpanIs(piece, c => c != '\n', |line|);
      assert !Breaks(line[|line| - 1]);
    }
  }

  /** A piece without a foreign break is a line and its end. */
  lemma LineOfPiece(piece: string, last: bool)
    requires WellEnded(piece, last) && !HasForeign(piece)
    ensures Plain(Chomp(piece)) && PieceOfLine(piece, Chomp(piece), last)
  {
    var line := Chomp(piece);
    var n := Span(piece, c => c != '\n');
    assert forall i :: 0 <= i < |line| ==> line[i] == piece[i];
    forall i | 0 <= i < |line| ensures !Breaks(line[i]) {
      assert !ForeignAt(piece, i) && i < n;
    }
    if piece[|piece| - 1] == '\n' {
      var s := piece[..|piece| - 1];
      assert piece == s + "\n";
      assert line != s ==> s == line + "\r" && piece == line + "\r\n";
    }
  }

  lemma PiecesRead(pieces: seq<string>, lines: seq<Line>)
    requires PiecesOfLines(pieces, lines)
    ensures WellCut(pieces) && !AnyForeign(pieces) && Chomped(pieces) == lines
  {
    forall i | 0 <= i < |lines|
      ensures WellEnded(pieces[i], i == |lines| - 1) && !HasForeign(pieces[i]) && Chomp(pieces[i]) == lines[i]
    {
      PieceIs(pieces[i], lines[i], i == |lines| - 1);
    }
  }

  lemma PiecesAreLines(pieces: seq<string>)
    requires WellCut(pieces) && !AnyForeign(pieces)
    ensures PiecesOfLines(pieces, Chomped(pieces))
  {
    forall i | 0 <= i < |pieces|
      ensures Plain(Chomp(pieces[i])) && PieceOfLine(pieces[i], Chomp(pieces[i]), i == |pieces| - 1)
    {
      assert !HasForeign(pieces[i]);
      LineOfPiece(pieces[i], i == |pieces| - 1);
    }
  }

  /** The lines of a text are what stands between its line ends, and there are none when it holds another break. */
  lemma LinesExactly(source: string, lines: seq<Line>)
    ensures Lines(source) == Ok(lines) <==> BreaksInto(source, lines)
  {
    if Lines(source) == Ok(lines) {
      var pieces := Pieces(source);
      PiecesWellCut(source);
      ForeignPieces(pieces);
      PiecesAreLines(pieces);
    }
    if BreaksInto(source, lines) {
      var pieces: seq<string> :| source == Join(pieces) && PiecesOfLines(pieces, lines);
      PiecesRead(pieces, lines);
      PiecesOfJoin(pieces);
      ForeignPieces(pieces);
    }
  }

  /** The parser accepts exactly the texts that break into lines that read as a workflow, and answers that workflow. */
  lemma ParsesExactly(source: string, w: Workflow)
    ensures Parse(source) == Ok(w) <==> exists lines :: BreaksInto(source, lines) && ReadsAs(Shapes(lines), w)
  {
    if Lines(source).Ok? {
      var lines := Lines(source).value;
      LinesExactly(source, lines);
      LinesParseExactly(Shapes(lines), w);
    }
    if lines :| BreaksInto(source, lines) && ReadsAs(Shapes(lines), w) {
      LinesExactly(source, lines);
    }
  }
}
