/** The theorems about the gate on the script's own inputs: the records of the exception file, as parsed, and the
    findings of the report, as yielded. */
module ScriptTheorems {
  import opened Wrappers
  import opened Sequences
  import opened PyStrings
  import opened ExceptionList
  import opened AuditFindings
  import opened GateCore
  import opened AuditGate
  import opened GateTheorems

  ghost predicate NoneRaises(fs: seq<Finding>) {
    forall f :: f in fs ==> !SeverityRaises(f)
  }

  lemma ViewedElements(fs: seq<Finding>)
    ensures forall v :: v in ViewedAll(fs) <==> exists f :: f in fs && v == Viewed(f)
    ensures (forall v :: v in ViewedAll(fs) ==> !v.raises) <==> NoneRaises(fs)
  {
    var vs := ViewedAll(fs);
    forall v
      ensures v in vs <==> exists f :: f in fs && v == Viewed(f)
    {
      if f :| f in fs && v == Viewed(f) {
        var i :| 0 <= i < |fs| && fs[i] == f;
        assert vs[i] == v;
      }
    }
    if forall v :: v in vs ==> !v.raises {
      forall f | f in fs
        ensures !SeverityRaises(f)
      {
        assert Viewed(f) in vs;
      }
    }
  }

  // ---------- the order of the file and of the report ----------

  lemma NormalizedPermuted(a: seq<Record>, b: seq<Record>, parse: DateParser)
    requires multiset(a) == multiset(b)
    ensures multiset(NormalizedAll(a, parse)) == multiset(NormalizedAll(b, parse))
  {
    var f := (e: Record) => Normalized(e, parse);
    MapPermuted(a, b, f);
    assert NormalizedAll(a, parse) == Map(a, f) && NormalizedAll(b, parse) == Map(b, f);
  }

  /** The script's verdict does not depend on the order of the exceptions in the file. */
  lemma FileOrderIrrelevant(a: seq<Record>, b: seq<Record>, parse: DateParser, today: int, fs: seq<Finding>)
    requires multiset(a) == multiset(b)
    ensures Approved(a, parse, today, fs) <==> Approved(b, parse, today, fs)
  {
    NormalizedPermuted(a, b, parse);
    ExceptionOrderIrrelevant(NormalizedAll(a, parse), NormalizedAll(b, parse), today, ViewedAll(fs));
  }

  /** Named high and critical findings of the same normalised key have the same normalised severity. */
  ghost predicate ReportAgrees(fs: seq<Finding>) {
    forall f, g :: f in fs && g in fs && Viewed(f).relevant && Viewed(g).relevant && Viewed(f).key == Viewed(g).key ==>
      Severity(f) == Severity(g)
  }

  lemma ReportAgreesViewed(fs: seq<Finding>)
    ensures ReportAgrees(fs) <==> SeveritiesAgree(ViewedAll(fs))
  {
    ViewedElements(fs);
    if SeveritiesAgree(ViewedAll(fs)) {
      forall f, g | f in fs && g in fs && Viewed(f).relevant && Viewed(g).relevant && Viewed(f).key == Viewed(g).key
        ensures Severity(f) == Severity(g)
      {
        assert Viewed(f) in ViewedAll(fs) && Viewed(g) in ViewedAll(fs);
      }
    }
  }

  /** For a report whose findings of one key agree on their severity, neither the order of the findings nor their
      repetition matters. */
  lemma ReportOrderIrrelevant(excs: seq<Record>, parse: DateParser, today: int, fs: seq<Finding>, gs: seq<Finding>)
    requires ReportAgrees(fs) && forall f :: f in fs <==> f in gs
    ensures Approved(excs, parse, today, fs) <==> Approved(excs, parse, today, gs)
  {
    ViewedElements(fs);
    ViewedElements(gs);
    ReportAgreesViewed(fs);
    FindingOrderIrrelevant(NormalizedAll(excs, parse), today, ViewedAll(fs), ViewedAll(gs));
  }

  lemma ViewedTwice(fs: seq<Finding>)
    ensures ViewedAll(fs + fs) == ViewedAll(fs) + ViewedAll(fs)
  {
    var vs, ws := ViewedAll(fs), ViewedAll(fs + fs);
    forall i | 0 <= i < |ws|
      ensures ws[i] == (vs + vs)[i]
    {
      assert (fs + fs)[i] == if i < |fs| then fs[i] else fs[i - |fs|];
    }
  }

  /** A report that lists its findings twice gets the verdict of the report that lists them once. */
  lemma ReportTwiceIsOnce(excs: seq<Record>, parse: DateParser, today: int, fs: seq<Finding>)
    ensures Approved(excs, parse, today, fs + fs) <==> Approved(excs, parse, today, fs)
  {
    var vs := ViewedAll(fs);
    ViewedTwice(fs);
    ViewedElements(fs);
    ViewedElements(fs + fs);
    assert NoneRaises(fs + fs) <==> NoneRaises(fs);
    TwiceIsOnce(NormalizedAll(excs, parse), today, vs);
  }

  // ---------- deduplication ----------

  /** The record is an exception for the finding. */
  predicate Covers(e: Record, parse: DateParser, f: Finding) {
    Normalized(e, parse).key == Viewed(f).key
  }

  /** If the script approves, every named high or critical finding, not only the first of its key, has a record in
      the file that has not expired. */
  lemma EveryFindingIsCovered(excs: seq<Record>, parse: DateParser, today: int, fs: seq<Finding>, f: Finding)
    requires Approved(excs, parse, today, fs) && f in fs && Viewed(f).relevant
    ensures exists e, day ::
              e in excs && Covers(e, parse, f) && parse(Get(e, "expires_on")) == Some(day) && today <= day
  {
    var i :| 0 <= i < |fs| && fs[i] == f;
    var es := NormalizedAll(excs, parse);
    DedupKeepsExpiry(es, today, ViewedAll(fs), i);
    var x :| x in es && x.key == Viewed(f).key && x.expires.Some? && today <= x.expires.value;
    var k :| 0 <= k < |es| && es[k] == x;
    assert excs[k] in excs && Covers(excs[k], parse, f) && parse(Get(excs[k], "expires_on")) == Some(x.expires.value);
  }

  /** A record that normalises to a given exception, if its date is that of the text. */
  ghost function Written(e: Exc, date: string): Record {
    map["package" := e.key.0, "advisory" := e.key.1, "severity" := e.severity, "mitigation" := "m",
        "expires_on" := date]
  }

  lemma LowerIsNoSpace(c: char)
    requires 'A' <= c <= 'Z'
    ensures !IsSpace(c + ' ')
  {
  }

  lemma LowerTrimmed(s: string)
    requires Trimmed(s)
    ensures Trimmed(Lower(s))
  {
    var r := Lower(s);
    if s != "" {
      if 'A' <= s[0] <= 'Z' {
        LowerIsNoSpace(s[0]);
      }
      if 'A' <= s[|s| - 1] <= 'Z' {
        LowerIsNoSpace(s[|s| - 1]);
      }
      assert !IsSpace(r[0]) && !IsSpace(r[|r| - 1]);
    }
  }

  lemma NormalTwice(s: string)
    ensures Normal(Normal(s)) == Normal(s)
  {
    var t := Strip(s);
    LowerTrimmed(t);
    assert Strip(Lower(t)) == Lower(t);
    LowerTwice(t);
  }

  lemma FieldNamesDiffer()
    ensures "package" !in {"advisory", "severity", "mitigation", "expires_on"}
    ensures "advisory" !in {"severity", "mitigation", "expires_on"}
    ensures "severity" !in {"mitigation", "expires_on"}
    ensures "mitigation" != "expires_on"
  {
    assert |"package"| == 7 && |"advisory"| == |"severity"| == 8 && |"mitigation"| == |"expires_on"| == 10;
    assert "advisory"[0] != "severity"[0] && "mitigation"[0] != "expires_on"[0];
  }

  lemma WrittenFields(e: Exc, date: string)
    ensures var r := Written(e, date);
            && Get(r, "package") == e.key.0 && Get(r, "advisory") == e.key.1 && Get(r, "severity") == e.severity
            && Get(r, "mitigation") == "m" && Get(r, "expires_on") == date
  {
    FieldNamesDiffer();
  }

  lemma WrittenComplete(e: Exc, date: string)
    requires e.key.0 != "" && e.key.1 != "" && e.severity != "" && date != ""
    ensures Complete(Written(e, date))
  {
    var r := Written(e, date);
    WrittenFields(e, date);
    assert |"m"| == 1;
    forall field | field in REQUIRED
      ensures Get(r, field) != ""
    {
      assert field == "package" || field == "advisory" || field == "severity" || field == "mitigation" ||
             field == "expires_on";
    }
  }

  lemma WrittenNormalizes(e: Exc, parse: DateParser, date: string)
    requires e.complete && e.key.0 != "" && e.key.1 != "" && e.severity != "" && date != "" && parse(date) == e.expires
    requires Strip(e.key.0) == e.key.0 && Normal(e.key.1) == e.key.1 && Normal(e.severity) == e.severity
    ensures Normalized(Written(e, date), parse) == e
  {
    WrittenFields(e, date);
    WrittenComplete(e, date);
  }

  /** Some named high or critical finding has a name that strips to nothing or an advisory that does: no exception
      can cover it. */
  ghost predicate Uncoverable(fs: seq<Finding>) {
    exists f :: f in fs && Viewed(f).relevant && (Viewed(f).key.0 == "" || Viewed(f).key.1 == "")
  }

  ghost predicate ApprovedStrictly(excs: seq<Record>, parse: DateParser, today: int, fs: seq<Finding>) {
    NoneRaises(fs) && PassesStrictly(NormalizedAll(excs, parse), today, ViewedAll(fs))
  }

  /** The parser accepts no text that a record could have as its date. */
  ghost predicate AcceptsNoDate(parse: DateParser) {
    forall text :: text != "" ==> parse(text).None?
  }

  /** For which reports deduplication is harmless: with a given date parser, it gives the same verdict as looking at
      every finding, whatever the file and the day, exactly if the findings of each key agree on their severity, or the
      report cannot be approved at all, or no exception can be dated. */
  lemma ReportDedupHarmlessIff(fs: seq<Finding>, parse: DateParser)
    ensures (forall excs: seq<Record>, today: int ::
               Approved(excs, parse, today, fs) ==> ApprovedStrictly(excs, parse, today, fs)) <==>
            ReportAgrees(fs) || Uncoverable(fs) || !NoneRaises(fs) || AcceptsNoDate(parse)
  {
    if ReportAgrees(fs) || Uncoverable(fs) || !NoneRaises(fs) || AcceptsNoDate(parse) {
      forall excs: seq<Record>, today: int | Approved(excs, parse, today, fs)
        ensures ApprovedStrictly(excs, parse, today, fs)
      {
        if AcceptsNoDate(parse) {
          UndatedApproved(excs, parse, today, fs);
        } else {
          ApprovedStrictlyToo(excs, parse, today, fs);
        }
      }
    } else {
      var text :| text != "" && parse(text).Some?;
      var excs := HidingFile(fs, parse, text);
    }
  }

  lemma UndatedInvalid(e: Record, parse: DateParser)
    requires AcceptsNoDate(parse)
    ensures !Valid(Normalized(e, parse))
  {
    assert "expires_on" in REQUIRED;
  }

  lemma NoExceptionsNoFindings(today: int, vs: seq<Vuln>)
    requires Passes([], today, vs)
    ensures forall v :: v in vs ==> !v.relevant
  {
    if v :| v in vs && v.relevant {
      var i :| 0 <= i < |vs| && vs[i] == v;
      DedupKeepsExpiry([], today, vs, i);
    }
  }

  lemma UndatedApproved(excs: seq<Record>, parse: DateParser, today: int, fs: seq<Finding>)
    requires AcceptsNoDate(parse) && Approved(excs, parse, today, fs)
    ensures ApprovedStrictly(excs, parse, today, fs)
  {
    var es := NormalizedAll(excs, parse);
    ViewedElements(fs);
    assert es == [] by {
      if es != [] {
        UndatedInvalid(excs[0], parse);
      }
    }
    NoExceptionsNoFindings(today, ViewedAll(fs));
  }

  lemma UncoverableViewed(fs: seq<Finding>)
    ensures Uncoverable(fs) <==> Unlistable(ViewedAll(fs))
  {
    ViewedElements(fs);
    if f :| f in fs && Viewed(f).relevant && (Viewed(f).key.0 == "" || Viewed(f).key.1 == "") {
      assert Viewed(f) in ViewedAll(fs);
    }
  }

  lemma ApprovedStrictlyToo(excs: seq<Record>, parse: DateParser, today: int, fs: seq<Finding>)
    requires ReportAgrees(fs) || Uncoverable(fs) || !NoneRaises(fs)
    requires Approved(excs, parse, today, fs)
    ensures ApprovedStrictly(excs, parse, today, fs)
  {
    var es, vs := NormalizedAll(excs, parse), ViewedAll(fs);
    ViewedElements(fs);
    if Uncoverable(fs) {
      UncoverableViewed(fs);
      UnlistableFails(es, today, vs);
    } else {
      ReportAgreesViewed(fs);
      AgreeingPassStrictly(es, today, vs);
    }
  }

  /** A file that makes the script approve the report although it does not excuse every finding. */
  lemma HidingFile(fs: seq<Finding>, parse: DateParser, date: string) returns (excs: seq<Record>)
    requires !ReportAgrees(fs) && !Uncoverable(fs) && NoneRaises(fs) && date != "" && parse(date).Some?
    ensures Approved(excs, parse, parse(date).value, fs) && !ApprovedStrictly(excs, parse, parse(date).value, fs)
  {
    var vs, day := ViewedAll(fs), parse(date).value;
    ViewedElements(fs);
    ReportAgreesViewed(fs);
    UncoverableViewed(fs);
    excs := ListingRecords(fs, parse, date);
    ListingPasses(vs, day);
    ListingMeaning(vs, day);
    var f, g :| f in vs && g in vs && f.relevant && g.relevant && f.key == g.key && f.severity != g.severity;
    RelevantHasSeverity(fs);
    DisagreeingFail(Listing(vs, day), day, vs, f, g);
  }

  lemma RelevantHasSeverity(fs: seq<Finding>)
    ensures forall v :: v in ViewedAll(fs) && v.relevant ==> v.severity != ""
  {
    assert |"high"| == 4 && |"critical"| == 8;
  }

  /** The listing of a report's findings, as records of a file. */
  lemma ListingRecords(fs: seq<Finding>, parse: DateParser, date: string) returns (excs: seq<Record>)
    requires !Uncoverable(fs) && date != "" && parse(date).Some?
    ensures NormalizedAll(excs, parse) == Listing(ViewedAll(fs), parse(date).value)
  {
    var vs, day := ViewedAll(fs), parse(date).value;
    var es := Listing(vs, day);
    ViewedElements(fs);
    RelevantHasSeverity(fs);
    ListingMeaning(vs, day);
    excs := Map(es, (e: Exc) => Written(e, date));
    forall i | 0 <= i < |es|
      ensures Normalized(excs[i], parse) == es[i]
    {
      assert es[i] in es;
      var v :| v in vs && v.relevant && es[i] == Exc(true, v.key, v.severity, Some(day));
      var f :| f in fs && v == Viewed(f);
      NormalTwice(f.advisory.Str());
      if f.severity.Text? {
        NormalTwice(f.severity.s);
      }
      WrittenNormalizes(es[i], parse, date);
    }
  }

  // ---------- the passing days ----------

  /** The days on which the script approves are exactly those up to the minimum expiry over the records it uses,
      provided that it approves with expiry ignored. */
  lemma ApprovedDays(excs: seq<Record>, parse: DateParser, today: int, fs: seq<Finding>)
    ensures var es, vs := NormalizedAll(excs, parse), ViewedAll(fs);
            Approved(excs, parse, today, fs) <==>
              NoneRaises(fs) && PassesIgnoringExpiry(es, vs) &&
              (LastDay(es, vs).None? || today <= LastDay(es, vs).value)
  {
    ViewedElements(fs);
    PassingDaysAreDownwardClosed(NormalizedAll(excs, parse), ViewedAll(fs), today);
  }
}
