/** Soundness of the checker's own self-test: whenever the check passes, dropping any one `needs` item is reported.
    Models `self_test_failures` in tools/check_required_needs.py. */
module RequiredNeedsSelfTest {
  import opened Prelude
  import opened RequiredNeeds

  /** All elements but the one at `d`. */
  function Dropped<T>(s: seq<T>, d: nat): (r: seq<T>)
    requires d < |s|
    ensures |r| == |s| - 1
    ensures forall i :: 0 <= i < |r| ==> r[i] == s[if i < d then i else i + 1]
  {
    seq(|s| - 1, i requires 0 <= i < |s| - 1 => s[if i < d then i else i + 1])
  }

  /** Without the given line, counted from 1; unchanged when there is no such line. */
  function DropLine(source: string, line: nat): string {
    var pieces := Pieces(source);
    if 0 < line <= |pieces| then Join(Dropped(pieces, line - 1)) else Join(pieces)
  }

  datatype SelfTest = NothingToRemove | Unreported(entries: seq<Entry>)

  /** The entries whose removal goes unreported; a removal that breaks the layout aborts the whole test. */
  function UnreportedOf(source: string, entries: seq<Entry>): Result<seq<Entry>> {
    if entries == [] then Ok([])
    else
      var found :- FindProblemsOf(DropLine(source, entries[0].line));
      var rest :- UnreportedOf(source, entries[1..]);
      Ok(if found == [] then [entries[0]] + rest else rest)
  }

  function SelfTestFailures(source: string): Result<SelfTest> {
    var w :- Parse(source);
    if w.needs == [] then Ok(NothingToRemove)
    else
      var unreported :- UnreportedOf(source, w.needs);
      Ok(Unreported(unreported))
  }

  // ------------------------------------------------------------------
  // Shapes of a `needs` item
  // ------------------------------------------------------------------

  predicate IsItem(line: Line) { NeedsItem(line) != "" }

  lemma SpanIs(s: string, p: char -> bool, n: nat)
    requires n <= |s| && (forall i :: 0 <= i < n ==> p(s[i])) && (n < |s| ==> !p(s[n]))
    ensures Span(s, p) == n
  {
  }

  lemma ItemShape(line: Line)
    requires IsItem(line)
    ensures |line| > 8 && line[..8] == "      - " && line[0] == ' '
    ensures Spaces(line) == 6
    ensures !AllSpace(line) && !CommentLine(line) && !TopLevel(line) && !JobsAny(line) && !NeedsAny(line)
    ensures !BlockScalar(line)
  {
    var p := "      - ";
    assert line[..8] == p;
    forall i | 0 <= i < 8 ensures line[i] == p[i] {
      assert line[..8][i] == p[i];
    }
    SpanIs(line, c => c == ' ', 6);
    SpanIs(line, IsSpace, 6);
    ItemNoScalar(line);
    assert line[4..][0] == ' ';
    NotQuoted(line, "jobs");
    NotQuoted(line[4..], "needs");
  }

  lemma StartsAt(s: string, prefix: string, i: nat)
    requires StartsWith(s, prefix) && i < |prefix|
    ensures s[i] == prefix[i]
  {
    assert s[..|prefix|][i] == prefix[i];
  }

  lemma NotQuoted(s: string, word: string)
    requires s != [] && s[0] == ' ' && word != [] && word[0] != ' '
    ensures !QuotedKey(s, word)
  {
  }

  lemma ItemNoScalar(line: Line)
    requires IsItem(line) && Spaces(line) == 6
    ensures !BlockScalar(line)
  {
    var s := line[6..];
    assert line[..8][6] == '-' && line[..8][7] == ' ';
    assert s[..2] == "- ";
    var id := line[8..];
    assert s[1..][0] == ' ' && s[1..][1..] == id;
    assert id != [] && IsIdChar(id[0]);
    SpanIs(s[1..], c => c == ' ', 1);
    assert s[1..][1..] == id;
    var n := Span(id, IsIdChar);
    assert n < |id| ==> id[n..][0] == id[n] && Span(id[n..], IsBlank) > 0;
    SpanIs(id, IsKeyChar, n);
  }

  lemma NeedsKeyNoScalar(line: Line)
    requires NeedsKey(line)
    ensures !BlockScalar(line)
  {
    var p := "    needs:";
    forall i | 0 <= i < 10 ensures line[i] == p[i] {
      assert line[..10][i] == p[i];
    }
    SpanIs(line, c => c == ' ', 4);
    var s := line[4..];
    assert s[0] == 'n';
    if StartsWith(s, "- ") {
      StartsAt(s, "- ", 0);
    }
    SpanIs(s, IsKeyChar, 5);
    assert s[6..] == line[10..];
    var n := Span(line[10..], IsBlank);
  }

  // ------------------------------------------------------------------
  // Cutting one line out, and renumbering what follows it
  // ------------------------------------------------------------------

  function Earlier(no: nat, at: nat): nat { if no > at then no - 1 else no }

  /** Without the lines numbered `at`. */
  function Cut(ns: seq<Numbered>, at: nat): seq<Numbered> {
    if ns == [] then []
    else if ns[0].no == at then Cut(ns[1..], at)
    else [Moved(ns[0], at)] + Cut(ns[1..], at)
  }

  function Moved(n: Numbered, at: nat): Numbered { Numbered(Earlier(n.no, at), n.line) }

  function CutEntries(entries: seq<Entry>, at: nat): seq<Entry> {
    if entries == [] then []
    else if entries[0].line == at then CutEntries(entries[1..], at)
    else [Entry(entries[0].name, Earlier(entries[0].line, at))] + CutEntries(entries[1..], at)
  }

  function Renumber(entries: seq<Entry>, at: nat): seq<Entry> {
    seq(|entries|, i requires 0 <= i < |entries| => Entry(entries[i].name, Earlier(entries[i].line, at)))
  }

  function CutBodies(bodies: map<string, seq<Numbered>>, at: nat): map<string, seq<Numbered>> {
    map name | name in bodies :: Cut(bodies[name], at)
  }

  function CutTable(t: JobTable, at: nat): JobTable { JobTable(Renumber(t.jobs, at), CutBodies(t.bodies, at)) }

  lemma {:induction false} CutAppend(a: seq<Numbered>, b: seq<Numbered>, at: nat)
    ensures Cut(a + b, at) == Cut(a, at) + Cut(b, at)
  {
    if a == [] {
      assert a + b == b;
    } else {
      assert (a + b)[1..] == a[1..] + b;
      CutAppend(a[1..], b, at);
    }
  }

  lemma CutOne(n: Numbered, at: nat)
    ensures Cut([n], at) == if n.no == at then [] else [Moved(n, at)]
  {
  }

  // ------------------------------------------------------------------
  // Job bodies
  // ------------------------------------------------------------------

  /** Whatever carries this number is a line of a job's body. */
  ghost predicate DeepAt(ns: seq<Numbered>, at: nat) {
    forall n :: n in ns && n.no == at ==> Indent(n).Ok? && Indent(n).value >= BODY_INDENT
  }

  predicate Closed(t: JobTable) { forall i :: 0 <= i < |t.jobs| ==> t.jobs[i].name in t.bodies }

  lemma {:induction false} TablesAreClosed(ns: seq<Numbered>)
    requires JobBodiesOf(ns).Ok?
    ensures Closed(JobBodiesOf(ns).value)
  {
    if ns != [] {
      TablesAreClosed(ns[..|ns| - 1]);
    }
  }

  lemma CutBodiesUpdate(bodies: map<string, seq<Numbered>>, name: string, body: seq<Numbered>, at: nat)
    ensures CutBodies(bodies[name := body], at) == CutBodies(bodies, at)[name := Cut(body, at)]
  {
  }

  predicate InBody(t: JobTable, n: Numbered) { Indent(n).Ok? && Indent(n).value >= BODY_INDENT && t.jobs != [] }

  /** The table with one more line in the last job's body. */
  function Grown(t: JobTable, name: string, n: Numbered): JobTable
    requires name in t.bodies
  {
    JobTable(t.jobs, t.bodies[name := t.bodies[name] + [n]])
  }

  lemma LineJoinsBody(t: JobTable, n: Numbered, name: string)
    requires Closed(t) && InBody(t, n) && name == t.jobs[|t.jobs| - 1].name
    ensures name in t.bodies && AddLine(t, n) == Ok(Grown(t, name, n))
  {
  }

  lemma CutGrown(t: JobTable, name: string, n: Numbered, at: nat)
    requires name in t.bodies
    ensures n.no == at ==> CutTable(Grown(t, name, n), at) == CutTable(t, at)
    ensures n.no != at ==> CutTable(Grown(t, name, n), at) == Grown(CutTable(t, at), name, Moved(n, at))
  {
    var body, cut := t.bodies[name], CutBodies(t.bodies, at);
    CutBodiesUpdate(t.bodies, name, body + [n], at);
    CutPush(body, n, at);
    assert cut[name := Cut(body, at)] == cut;
  }

  lemma CutPush(a: seq<Numbered>, n: Numbered, at: nat)
    ensures Cut(a + [n], at) == if n.no == at then Cut(a, at) else Cut(a, at) + [Moved(n, at)]
  {
    CutAppend(a, [n], at);
    CutOne(n, at);
  }

  lemma BodyLineCut(t: JobTable, n: Numbered, at: nat)
    requires Closed(t) && InBody(t, n)
    ensures AddLine(t, n).Ok?
    ensures n.no == at ==> CutTable(AddLine(t, n).value, at) == CutTable(t, at)
    ensures n.no != at ==> AddLine(CutTable(t, at), Moved(n, at)) == Ok(CutTable(AddLine(t, n).value, at))
  {
    var name := t.jobs[|t.jobs| - 1].name;
    LineJoinsBody(t, n, name);
    CutGrown(t, name, n, at);
    if n.no != at {
      LineJoinsBody(CutTable(t, at), Moved(n, at), name);
    }
  }

  lemma HeaderCut(t: JobTable, n: Numbered, at: nat)
    requires AddLine(t, n).Ok? && !InBody(t, n)
    ensures AddLine(CutTable(t, at), Moved(n, at)) == Ok(CutTable(AddLine(t, n).value, at))
  {
    var name := n.line.header;
    CutBodiesUpdate(t.bodies, name, [], at);
    assert Renumber(t.jobs + [Entry(name, n.no)], at) == Renumber(t.jobs, at) + [Entry(name, Earlier(n.no, at))];
  }

  lemma JobBodiesPush(before: seq<Numbered>, n: Numbered)
    ensures JobBodiesOf(before + [n]) == if JobBodiesOf(before).Err? then JobBodiesOf(before) else AddLine(JobBodiesOf(before).value, n)
  {
    assert (before + [n])[..|before|] == before;
  }

  /** Cutting a line of a body out leaves the same jobs, with that line gone from its body. */
  lemma {:induction false} JobBodiesCut(ns: seq<Numbered>, at: nat)
    requires JobBodiesOf(ns).Ok? && DeepAt(ns, at)
    ensures JobBodiesOf(Cut(ns, at)) == Ok(CutTable(JobBodiesOf(ns).value, at))
  {
    if ns == [] {
      assert CutTable(JobTable([], map[]), at) == JobTable([], map[]);
    } else {
      var before, n := ns[..|ns| - 1], ns[|ns| - 1];
      JobBodiesPush(before, n);
      assert ns == before + [n] && n in ns;
      JobBodiesCut(before, at);
      CutAppend(before, [n], at);
      LineCut(before, n, at);
    }
  }

  lemma LineCut(before: seq<Numbered>, n: Numbered, at: nat)
    requires JobBodiesOf(before).Ok? && AddLine(JobBodiesOf(before).value, n).Ok? && DeepAt([n], at)
    requires JobBodiesOf(Cut(before, at)) == Ok(CutTable(JobBodiesOf(before).value, at))
    ensures JobBodiesOf(Cut(before, at) + Cut([n], at)) == Ok(CutTable(AddLine(JobBodiesOf(before).value, n).value, at))
  {
    var t := JobBodiesOf(before).value;
    TablesAreClosed(before);
    CutOne(n, at);
    assert n in [n];
    if InBody(t, n) {
      BodyLineCut(t, n, at);
    } else {
      HeaderCut(t, n, at);
      assert n.no != at;
    }
    if n.no == at {
      assert Cut(before, at) + [] == Cut(before, at);
    } else {
      JobBodiesPush(Cut(before, at), Moved(n, at));
    }
  }

  predicate NextAt(ns: seq<Numbered>, p: nat, y: Numbered, x: Numbered) { 0 < p < |ns| && ns[p - 1] == y && ns[p] == x }

  /** `y` and `x` are next to each other. */
  predicate Follows(ns: seq<Numbered>, y: Numbered, x: Numbered) { exists p :: 0 < p < |ns| && NextAt(ns, p, y, x) }

  lemma FollowsMore(ns: seq<Numbered>, n: Numbered, y: Numbered, x: Numbered)
    requires Follows(ns, y, x)
    ensures Follows(ns + [n], y, x)
  {
    var p :| 0 < p < |ns| && NextAt(ns, p, y, x);
    assert NextAt(ns + [n], p, y, x);
  }

  predicate FollowedIn(ns: seq<Numbered>, body: seq<Numbered>, q: nat) {
    0 < q < |body| ==> Follows(ns, body[q - 1], body[q])
  }

  predicate BodyTogether(ns: seq<Numbered>, body: seq<Numbered>) { forall q :: 0 < q < |body| ==> FollowedIn(ns, body, q) }

  lemma TogetherMore(ns: seq<Numbered>, body: seq<Numbered>, n: Numbered)
    requires BodyTogether(ns, body)
    ensures BodyTogether(ns + [n], body)
  {
    forall q | 0 < q < |body| ensures FollowedIn(ns + [n], body, q) {
      assert FollowedIn(ns, body, q);
      FollowsMore(ns, n, body[q - 1], body[q]);
    }
  }

  /** The body being filled ends with the latest line. */
  predicate LatestBody(ns: seq<Numbered>, t: JobTable) {
    t.jobs != [] ==>
      var last := t.jobs[|t.jobs| - 1].name;
      last in t.bodies && (t.bodies[last] != [] ==> ns != [] && t.bodies[last][|t.bodies[last]| - 1] == ns[|ns| - 1])
  }

  predicate Together(ns: seq<Numbered>, t: JobTable) {
    LatestBody(ns, t) && forall name :: name in t.bodies ==> BodyTogether(ns, t.bodies[name])
  }

  lemma BodyGrows(ns: seq<Numbered>, body: seq<Numbered>, n: Numbered)
    requires BodyTogether(ns, body) && (body != [] ==> ns != [] && body[|body| - 1] == ns[|ns| - 1])
    ensures BodyTogether(ns + [n], body + [n])
  {
    TogetherMore(ns, body, n);
    var more, all := body + [n], ns + [n];
    forall q | 0 < q < |more| ensures FollowedIn(all, more, q) {
      if q < |body| {
        assert FollowedIn(all, body, q);
      } else {
        assert NextAt(all, |ns|, body[|body| - 1], n);
      }
    }
  }

  lemma AddLineTogether(before: seq<Numbered>, t: JobTable, n: Numbered)
    requires Together(before, t) && AddLine(t, n).Ok?
    ensures Together(before + [n], AddLine(t, n).value)
  {
    var t1 := AddLine(t, n).value;
    forall name | name in t1.bodies ensures BodyTogether(before + [n], t1.bodies[name]) {
      if name in t.bodies {
        assert BodyTogether(before, t.bodies[name]);
        if InBody(t, n) && name == t.jobs[|t.jobs| - 1].name {
          BodyGrows(before, t.bodies[name], n);
        } else {
          TogetherMore(before, t.bodies[name], n);
        }
      }
    }
  }

  /** The lines of one body are next to each other among the structural lines. */
  lemma {:induction false} BodiesTogether(ns: seq<Numbered>)
    requires JobBodiesOf(ns).Ok?
    ensures Together(ns, JobBodiesOf(ns).value)
  {
    if ns != [] {
      var before, n := ns[..|ns| - 1], ns[|ns| - 1];
      JobBodiesPush(before, n);
      assert ns == before + [n];
      BodiesTogether(before);
      AddLineTogether(before, JobBodiesOf(before).value, n);
    }
  }

  // ------------------------------------------------------------------
  // The needs block
  // ------------------------------------------------------------------

  lemma {:induction false} BodyErrorCut(body: seq<Numbered>, at: nat)
    requires BodyError(body).Ok?
    ensures BodyError(Cut(body, at)).Ok?
  {
    if body != [] {
      BodyErrorCut(body[1..], at);
      if body[0].no != at {
        assert Cut(body, at)[1..] == Cut(body[1..], at);
      }
    }
  }

  predicate NoneSatisfies(lines: seq<Shape>, p: Shape -> bool) { forall i :: 0 <= i < |lines| ==> !p(lines[i]) }

  lemma {:induction false} NoIndices(lines: seq<Shape>, p: Shape -> bool, offset: nat)
    ensures Indices(lines, p, offset) == [] <==> NoneSatisfies(lines, p)
  {
    if lines != [] {
      NoIndices(lines[1..], p, offset + 1);
      assert lines == [lines[0]] + lines[1..];
    }
  }

  /** Line `k`, and no other, satisfies `p`. */
  predicate OnlyAt(lines: seq<Shape>, k: nat, p: Shape -> bool) {
    k < |lines| && forall i :: 0 <= i < |lines| ==> (p(lines[i]) <==> i == k)
  }

  lemma {:induction false} OnlyIndex(lines: seq<Shape>, p: Shape -> bool, offset: nat, k: nat)
    ensures Indices(lines, p, offset) == [offset + k] <==> OnlyAt(lines, k, p)
  {
    if lines != [] {
      var rest := lines[1..];
      var later := Indices(rest, p, offset + 1);
      IndicesInRange(rest, p, offset + 1);
      NoIndices(rest, p, offset + 1);
      if p(lines[0]) {
        var all := Indices(lines, p, offset);
        assert all == [offset] + later && all[0] == offset && |all| == 1 + |later|;
        assert later == [] ==> all == [offset];
        assert OnlyAt(lines, 0, p) <==> NoneSatisfies(rest, p) by {
          assert forall i :: 0 <= i < |rest| ==> rest[i] == lines[i + 1];
        }
      } else {
        assert Indices(lines, p, offset) == later;
        if k > 0 {
          OnlyIndex(rest, p, offset + 1, k - 1);
          OnlyAtLater(lines, k, p);
        } else {
          assert later != [] ==> later[0] in later;
        }
      }
    }
  }

  lemma OnlyAtLater(lines: seq<Shape>, k: nat, p: Shape -> bool)
    requires lines != [] && !p(lines[0]) && k > 0
    ensures OnlyAt(lines, k, p) <==> OnlyAt(lines[1..], k - 1, p)
  {
    var rest := lines[1..];
    assert forall i :: 0 <= i < |rest| ==> rest[i] == lines[i + 1];
    if OnlyAt(rest, k - 1, p) {
      forall i | 0 <= i < |lines| ensures p(lines[i]) <==> i == k {
        assert i > 0 ==> lines[i] == rest[i - 1];
      }
    }
  }

  lemma {:induction false} CutNone(body: seq<Numbered>, at: nat, p: Shape -> bool)
    requires NoneSatisfies(Texts(body), p)
    ensures NoneSatisfies(Texts(Cut(body, at)), p)
  {
    if body != [] {
      assert forall i :: 0 <= i < |body[1..]| ==> Texts(body[1..])[i] == Texts(body)[i + 1];
      CutNone(body[1..], at, p);
      if body[0].no != at {
        var cut, rest := Cut(body, at), Cut(body[1..], at);
        assert Texts(body)[0] == body[0].line;
        assert forall i :: 1 <= i < |cut| ==> Texts(cut)[i] == Texts(rest)[i - 1];
      }
    }
  }

  function EntryOf(x: Numbered): Entry { Entry(x.line.item, x.no) }

  /** A line of the `needs` block that names a job. */
  predicate IsEntry(x: Numbered) { ItemAt(x).Ok? && ItemAt(x).value.Some? }

  ghost predicate EntryAt(ns: seq<Numbered>, at: nat) { forall n :: n in ns && n.no == at ==> IsEntry(n) && !n.line.needsLike }

  lemma {:induction false} ItemsCut(rest: seq<Numbered>, at: nat)
    requires ItemsFrom(rest).Ok? && EntryAt(rest, at)
    ensures ItemsFrom(Cut(rest, at)) == Ok(CutEntries(ItemsFrom(rest).value, at))
  {
    if rest != [] {
      var n, later := rest[0], rest[1..];
      assert n in rest;
      if IsEntry(n) {
        ItemsCut(later, at);
        var items := ItemsFrom(rest).value;
        assert items[0] == EntryOf(n) && items[1..] == ItemsFrom(later).value;
      }
      if n.no != at {
        assert Cut(rest, at)[0] == Moved(n, at) && Cut(rest, at)[1..] == Cut(later, at);
      }
    }
  }

  lemma {:induction false} ItemsAt(rest: seq<Numbered>, r: nat)
    requires ItemsFrom(rest).Ok? && r < |ItemsFrom(rest).value|
    ensures |ItemsFrom(rest).value| <= |rest|
    ensures forall q :: 0 <= q <= r ==> IsEntry(rest[q])
    ensures ItemsFrom(rest).value[r] == EntryOf(rest[r])
  {
    if r > 0 {
      ItemsAt(rest[1..], r - 1);
      forall q | 0 <= q <= r ensures IsEntry(rest[q]) {
        assert q > 0 ==> rest[q] == rest[1..][q - 1];
      }
    } else if |ItemsFrom(rest).value| > 1 {
      ItemsAt(rest[1..], 0);
    }
  }

  lemma CutAround(pre: seq<Numbered>, key: Numbered, rest: seq<Numbered>, at: nat)
    requires key.no != at
    ensures Cut(pre + ([key] + rest), at) == Cut(pre, at) + ([Moved(key, at)] + Cut(rest, at))
  {
    CutAppend(pre, [key] + rest, at);
    CutAppend([key], rest, at);
    CutOne(key, at);
  }

  lemma Around(pre: seq<Numbered>, key: Numbered, rest: seq<Numbered>)
    ensures var all := pre + ([key] + rest); |pre| < |all| && all[|pre|] == key && all[|pre| + 1..] == rest
  {
  }

  /** The key keeps its place when another line is cut out. */
  lemma KeyStays(body: seq<Numbered>, k: nat, at: nat, like: Shape -> bool) returns (k1: nat)
    requires OnlyAt(Texts(body), k, like) && body[k].no != at
    ensures k1 < |Cut(body, at)| && OnlyAt(Texts(Cut(body, at)), k1, like)
    ensures Cut(body, at)[k1].line == body[k].line && Cut(body, at)[k1 + 1..] == Cut(body[k + 1..], at)
  {
    var pre, key, rest := body[..k], body[k], body[k + 1..];
    assert forall i :: 0 <= i < |body| ==> Texts(body)[i] == body[i].line;
    assert body == pre + ([key] + rest);
    k1 := KeyBetween(pre, key, rest, at, like);
  }

  lemma KeyBetween(pre: seq<Numbered>, key: Numbered, rest: seq<Numbered>, at: nat, like: Shape -> bool) returns (k1: nat)
    requires like(key.line) && NoneSatisfies(Texts(pre), like) && NoneSatisfies(Texts(rest), like) && key.no != at
    ensures var cut := Cut(pre + ([key] + rest), at);
      k1 < |cut| && OnlyAt(Texts(cut), k1, like) && cut[k1].line == key.line && cut[k1 + 1..] == Cut(rest, at)
  {
    CutAround(pre, key, rest, at);
    CutNone(pre, at, like);
    CutNone(rest, at, like);
    k1 := |Cut(pre, at)|;
    Around(Cut(pre, at), Moved(key, at), Cut(rest, at));
    OnlyKey(Cut(pre, at), Moved(key, at), Cut(rest, at), like);
  }

  lemma OnlyKey(pre: seq<Numbered>, key: Numbered, rest: seq<Numbered>, like: Shape -> bool)
    requires like(key.line) && NoneSatisfies(Texts(pre), like) && NoneSatisfies(Texts(rest), like)
    ensures OnlyAt(Texts(pre + ([key] + rest)), |pre|, like)
  {
    var all := Texts(pre + ([key] + rest));
    forall i | 0 <= i < |all| ensures like(all[i]) <==> i == |pre| {
      if i < |pre| {
        assert all[i] == Texts(pre)[i];
      } else if i > |pre| {
        assert all[i] == Texts(rest)[i - |pre| - 1];
      }
    }
  }

  /** Where the one `needs:` key of an accepted body is. */
  lemma NeedsKeyAt(body: seq<Numbered>) returns (k: nat)
    requires NeedsEntries(body).Ok?
    ensures OnlyAt(Texts(body), k, LikeNeeds) && k < |body| && body[k].line.needsLike && body[k].line.needsKey
    ensures NeedsEntries(body) == ItemsFrom(body[k + 1..])
  {
    k := Indices(Texts(body), LikeNeeds, 0)[0];
    OnlyIndex(Texts(body), LikeNeeds, 0, k);
    assert Texts(body)[k] == body[k].line;
  }

  lemma NeedsAre(body: seq<Numbered>, k: nat)
    requires BodyError(body).Ok? && OnlyAt(Texts(body), k, LikeNeeds) && body[k].line.needsKey
    ensures NeedsEntries(body) == ItemsFrom(body[k + 1..])
  {
    OnlyIndex(Texts(body), LikeNeeds, 0, k);
  }

  lemma NeedsCut(body: seq<Numbered>, at: nat)
    requires NeedsEntries(body).Ok? && EntryAt(body, at)
    ensures NeedsEntries(Cut(body, at)) == Ok(CutEntries(NeedsEntries(body).value, at))
  {
    BodyErrorCut(body, at);
    var k := NeedsKeyAt(body);
    assert body[k] in body;
    var k1 := KeyStays(body, k, at, LikeNeeds);
    NeedsAre(Cut(body, at), k1);
    ItemsCut(body[k + 1..], at);
  }
}
