/** What does not change the verdict of the whole script, on the lines of the exception file and the audit report. */
module WholeScript {
  import opened Wrappers
  import opened Sequences
  import opened ExceptionList
  import opened AuditFindings
  import opened AuditGate
  import opened ScriptTheorems

  // ---------- blocks ----------

  function Concat<T>(parts: seq<seq<T>>): seq<T> {
    if parts == [] then [] else Concat(parts[..|parts| - 1]) + parts[|parts| - 1]
  }

  lemma ConcatLast<T>(a: seq<seq<T>>, m: seq<T>)
    ensures Concat(a + [m]) == Concat(a) + m
  {
    assert (a + [m])[..|a|] == a;
  }

  lemma Associative<T>(x: seq<T>, y: seq<T>, z: seq<T>)
    ensures x + (y + z) == (x + y) + z
  {
  }

  lemma ConcatStep<T>(a: seq<seq<T>>, init: seq<seq<T>>, m: seq<T>)
    requires Concat(a + init) == Concat(a) + Concat(init)
    ensures Concat(a + (init + [m])) == Concat(a) + Concat(init + [m])
  {
    Associative(a, init, [m]);
    ConcatLast(a + init, m);
    ConcatLast(init, m);
    Associative(Concat(a), Concat(init), m);
  }

  lemma {:induction false} ConcatAppend<T>(a: seq<seq<T>>, b: seq<seq<T>>)
    ensures Concat(a + b) == Concat(a) + Concat(b)
    decreases |b|
  {
    if b == [] {
      assert a + b == a;
    } else {
      var init, m := b[..|b| - 1], b[|b| - 1];
      ConcatAppend(a, init);
      ConcatStep(a, init, m);
      assert b == init + [m];
    }
  }

  lemma ConcatAround<T>(x: seq<seq<T>>, m: seq<T>, y: seq<seq<T>>)
    ensures Concat(x + [m] + y) == Concat(x) + m + Concat(y)
  {
    ConcatAppend(x + [m], y);
    ConcatLast(x, m);
  }

  lemma ConcatWithout<T>(x: seq<seq<T>>, m: seq<T>, y: seq<seq<T>>)
    ensures multiset(Concat(x + [m] + y)) == multiset(Concat(x + y)) + multiset(m)
  {
    ConcatAround(x, m, y);
    ConcatAppend(x, y);
    Rearranged(Concat(x), m, Concat(y));
  }

  lemma Rearranged<T>(x: seq<T>, m: seq<T>, y: seq<T>)
    ensures multiset(x + m + y) == multiset(x + y) + multiset(m)
  {
  }

  lemma {:induction false} ConcatPermuted<T>(a: seq<seq<T>>, b: seq<seq<T>>)
    requires multiset(a) == multiset(b)
    ensures multiset(Concat(a)) == multiset(Concat(b))
    decreases |a|
  {
    PermutationKeepsNoDup(a, b);
    if a != [] {
      var n := |a| - 1;
      assert a[n] in a && a[n] in b;
      var i :| 0 <= i < |b| && b[i] == a[n];
      RemoveOne(a, b, i);
      ConcatPermuted(a[..n], b[..i] + b[i + 1..]);
      ConcatWithout(b[..i], b[i], b[i + 1..]);
      assert b == b[..i] + [b[i]] + b[i + 1..];
    }
  }

  // ---------- a parser that reads blocks one by one ----------

  function Joined<R>(a: Option<seq<R>>, b: Option<seq<R>>): Option<seq<R>> {
    if a.Some? && b.Some? then Some(a.value + b.value) else None
  }

  function Contents<R>(a: Option<seq<R>>): seq<R> {
    if a.Some? then a.value else []
  }

  function Reader<L, R>(p: seq<L> -> Option<seq<R>>): seq<L> -> seq<R> {
    b => Contents(p(b))
  }

  ghost predicate AllParse<L, R>(p: seq<L> -> Option<seq<R>>, blocks: seq<seq<L>>) {
    forall b :: b in blocks ==> p(b).Some?
  }

  /** What such a parser reads from some lines and the blocks that follow them. */
  ghost function Read<L, R>(p: seq<L> -> Option<seq<R>>, head: seq<L>, blocks: seq<seq<L>>): Option<seq<R>> {
    if p(head).Some? && AllParse(p, blocks) then Some(p(head).value + Concat(Map(blocks, Reader(p)))) else None
  }

  lemma ReadLast<L, R>(p: seq<L> -> Option<seq<R>>, head: seq<L>, init: seq<seq<L>>, last: seq<L>)
    ensures Read(p, head, init + [last]) == Joined(Read(p, head, init), p(last))
  {
    var f := Reader(p);
    assert Map(init + [last], f) == Map(init, f) + [f(last)];
    ConcatLast(Map(init, f), f(last));
    assert AllParse(p, init + [last]) <==> AllParse(p, init) && p(last).Some?;
    if p(head).Some? && AllParse(p, init) && p(last).Some? {
      var x, y := p(head).value, Concat(Map(init, f));
      Associative(x, y, f(last));
    }
  }

  lemma {:induction false} BlocksAreRead<L(!new), R>(p: seq<L> -> Option<seq<R>>, head: seq<L>, blocks: seq<seq<L>>)
    requires forall x, b :: b in blocks ==> p(x + b) == Joined(p(x), p(b))
    ensures p(head + Concat(blocks)) == Read(p, head, blocks)
  {
    if blocks == [] {
      assert head + Concat(blocks) == head;
      assert Map(blocks, Reader(p)) == [] && Concat<R>([]) == [];
      if p(head).Some? {
        assert p(head).value + [] == p(head).value;
      }
    } else {
      var init, last := blocks[..|blocks| - 1], blocks[|blocks| - 1];
      assert blocks == init + [last] && last in blocks;
      BlocksAreRead(p, head, init);
      ReadLast(p, head, init, last);
      ConcatLast(init, last);
      Associative(head, Concat(init), last);
    }
  }

  /** Its results on two orders of the same blocks are permutations of each other. */
  lemma ReadPermuted<L, R>(p: seq<L> -> Option<seq<R>>, head: seq<L>, a: seq<seq<L>>, b: seq<seq<L>>)
    requires multiset(a) == multiset(b)
    ensures Read(p, head, a).Some? <==> Read(p, head, b).Some?
    ensures Read(p, head, a).Some? ==> multiset(Read(p, head, a).value) == multiset(Read(p, head, b).value)
  {
    PermutationKeepsNoDup(a, b);
    assert AllParse(p, a) <==> AllParse(p, b);
    var f := Reader(p);
    MapPermuted(a, b, f);
    ConcatPermuted(Map(a, f), Map(b, f));
  }

  // ---------- the items of the file ----------

  /** Some lines of the file that start with an item. */
  predicate Block(lines: seq<string>) {
    lines != [] && Classify(lines[0]).Item?
  }

  lemma ParsedPermuted(head: seq<string>, a: seq<seq<string>>, b: seq<seq<string>>)
    requires multiset(a) == multiset(b) && forall x :: x in a ==> Block(x)
    ensures Parsed(head + Concat(a)).Some? <==> Parsed(head + Concat(b)).Some?
    ensures Parsed(head + Concat(a)).Some? ==>
              multiset(Parsed(head + Concat(a)).value) == multiset(Parsed(head + Concat(b)).value)
  {
    var p := (lines: seq<string>) => Parsed(lines);
    PermutationKeepsNoDup(a, b);
    forall x, y | y in a
      ensures p(x + y) == Joined(p(x), p(y))
    {
      ParseSplit(x, y);
    }
    BlocksAreRead(p, head, a);
    BlocksAreRead(p, head, b);
    ReadPermuted(p, head, a, b);
  }

  /** The order of the items in the exception file does not matter to the script, whatever lines come before them. */
  lemma ItemOrderIrrelevant(head: seq<string>, a: seq<seq<string>>, b: seq<seq<string>>, report: Report,
                            parse: DateParser, today: int)
    requires multiset(a) == multiset(b) && forall x :: x in a ==> Block(x)
    ensures ScriptApproves(head + Concat(a), report, parse, today) <==>
              ScriptApproves(head + Concat(b), report, parse, today)
  {
    ParsedPermuted(head, a, b);
    var pa, pb := Parsed(head + Concat(a)), Parsed(head + Concat(b));
    if pa.Some? && Findings(report).Some? {
      FileOrderIrrelevant(pa.value, pb.value, parse, today, Findings(report).value);
    }
  }

  // ---------- the layout of the report ----------

  /** The reports list the same advisories and vulnerabilities, in any order and as often as they like. */
  ghost predicate SameEntries(r: Report, s: Report) {
    && (forall a :: a in r.advisories <==> a in s.advisories)
    && (forall v :: v in r.vulnerabilities <==> v in s.vulnerabilities)
  }

  lemma SameFindings(r: Report, s: Report)
    requires SameEntries(r, s)
    ensures Findings(r).Some? <==> Findings(s).Some?
    ensures Findings(r).Some? ==> forall f :: f in Findings(r).value <==> f in Findings(s).value
  {
    if Findings(r).Some? {
      forall f
        ensures f in Findings(r).value <==> f in Findings(s).value
      {
        FindingsMeaning(r, f);
        FindingsMeaning(s, f);
      }
    }
  }

  /** For reports whose findings of one key agree on their severity, neither the order of the entries nor their
      repetition matters to the script. */
  lemma EntryOrderIrrelevant(lines: seq<string>, r: Report, s: Report, parse: DateParser, today: int)
    requires SameEntries(r, s) && (Findings(r).Some? ==> ReportAgrees(Findings(r).value))
    ensures ScriptApproves(lines, r, parse, today) <==> ScriptApproves(lines, s, parse, today)
  {
    SameFindings(r, s);
    if Findings(r).Some? && Parsed(lines).Some? {
      ReportOrderIrrelevant(Parsed(lines).value, parse, today, Findings(r).value, Findings(s).value);
    }
  }

  // ---------- what approval means ----------

  /** If the script approves, every named high or critical advisory or cause in the report has a record in the file that
      has not expired. */
  lemma ApprovalCovers(lines: seq<string>, report: Report, parse: DateParser, today: int, f: Finding)
    requires ScriptApproves(lines, report, parse, today) && Viewed(f).relevant
    requires (exists a :: a in report.advisories && f == AdvisoryFinding(a))
             || (exists v :: v in report.vulnerabilities && CausedBy(v, f))
    ensures exists e, day ::
              e in Parsed(lines).value && Covers(e, parse, f) && parse(Get(e, "expires_on")) == Some(day) &&
                today <= day
  {
    FindingsMeaning(report, f);
    EveryFindingIsCovered(Parsed(lines).value, parse, today, Findings(report).value, f);
  }

  /** A script that approves on some day would have approved on every earlier one. */
  lemma ApprovedEarlier(lines: seq<string>, report: Report, parse: DateParser, today: int, earlier: int)
    requires ScriptApproves(lines, report, parse, today) && earlier <= today
    ensures ScriptApproves(lines, report, parse, earlier)
  {
    ApprovedDays(Parsed(lines).value, parse, today, Findings(report).value);
    ApprovedDays(Parsed(lines).value, parse, earlier, Findings(report).value);
  }
}
