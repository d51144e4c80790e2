/** The audit script: normalisation, the loops over exceptions and findings, and the exit code. */
module AuditGate {
  import opened Wrappers
  import opened PyStrings
  import opened ExceptionList
  import opened AuditFindings
  import opened GateCore

  /** Days are integers; a date parser maps a text to a day, or rejects it. */
  type DateParser = string -> Option<int>

  const REQUIRED: set<string> := {"package", "advisory", "severity", "mitigation", "expires_on"}

  // ---------- normalisation ----------

  function Normal(s: string): string {
    Lower(Strip(s))
  }

  function Get(e: Record, field: string): string {
    if field in e then e[field] else ""
  }

  predicate Complete(e: Record) {
    forall field :: field in REQUIRED ==> Get(e, field) != ""
  }

  function Normalized(e: Record, parse: DateParser): Exc {
    Exc(Complete(e), (Strip(Get(e, "package")), Normal(Get(e, "advisory"))), Normal(Get(e, "severity")),
        parse(Get(e, "expires_on")))
  }

  function Severity(f: Finding): string {
    if f.severity.Text? then Normal(f.severity.s) else ""
  }

  /** Stripping a severity that is a number raises. */
  predicate SeverityRaises(f: Finding) {
    f.severity.Number? && f.severity.Truthy()
  }

  /** The gate looks only at named findings of high or critical severity. */
  function Viewed(f: Finding): Vuln {
    Vuln(SeverityRaises(f), (Severity(f) == "high" || Severity(f) == "critical") && f.name.Truthy(),
         (Strip(f.name.Str()), Normal(f.advisory.Str())), Severity(f))
  }

  /** An exception is complete exactly if it has all five fields and none of them is empty. */
  lemma CompleteMeaning(e: Record)
    ensures Complete(e) <==>
              && "package" in e && e["package"] != "" && "advisory" in e && e["advisory"] != ""
              && "severity" in e && e["severity"] != "" && "mitigation" in e && e["mitigation"] != ""
              && "expires_on" in e && e["expires_on"] != ""
  {
    assert "package" in REQUIRED && "advisory" in REQUIRED && "severity" in REQUIRED;
    assert "mitigation" in REQUIRED && "expires_on" in REQUIRED;
  }

  /** What a complete exception is normalised to: package names keep their case, advisories and severities do not. */
  lemma NormalizedMeaning(e: Record, parse: DateParser)
    requires Complete(e)
    ensures "package" in e && "advisory" in e && "severity" in e && "expires_on" in e
    ensures Normalized(e, parse) ==
            Exc(true, (Strip(e["package"]), Lower(Strip(e["advisory"]))), Lower(Strip(e["severity"])),
                parse(e["expires_on"]))
  {
    CompleteMeaning(e);
  }

  /** What a field of the report reads as. */
  ghost predicate ReadsAs(x: Scalar, s: string) {
    match x
    case Absent => s == ""
    case Text(t) => s == t
    case Number(n) => s == Decimal(n)
  }

  /** What the gate sees of a finding: it looks at it exactly if it has a name and its severity, stripped and in lower
      case, is high or critical; its key is the stripped name and the stripped advisory in lower case. A severity that
      is a number other than zero raises. */
  lemma ViewedMeaning(f: Finding, name: string, advisory: string)
    requires ReadsAs(f.name, name) && ReadsAs(f.advisory, advisory)
    ensures Viewed(f).relevant <==>
              && f.name.Truthy() && f.severity.Text?
              && (Lower(Strip(f.severity.s)) == "high" || Lower(Strip(f.severity.s)) == "critical")
    ensures Viewed(f).relevant ==> Viewed(f).severity == Lower(Strip(f.severity.s))
    ensures Viewed(f).key == (Strip(name), Lower(Strip(advisory)))
    ensures Viewed(f).raises <==> f.severity.Number? && f.severity.n != 0
  {
  }

  function NormalizedAll(excs: seq<Record>, parse: DateParser): (es: seq<Exc>)
    ensures |es| == |excs| && forall i :: 0 <= i < |excs| ==> es[i] == Normalized(excs[i], parse)
  {
    seq(|excs|, i requires 0 <= i < |excs| => Normalized(excs[i], parse))
  }

  function ViewedAll(fs: seq<Finding>): (vs: seq<Vuln>)
    ensures |vs| == |fs| && forall i :: 0 <= i < |fs| ==> vs[i] == Viewed(fs[i])
  {
    seq(|fs|, i requires 0 <= i < |fs| => Viewed(fs[i]))
  }

  /** The gate's promise on parsed exceptions and findings. */
  ghost predicate Approved(excs: seq<Record>, parse: DateParser, today: int, fs: seq<Finding>) {
    && (forall f :: f in ViewedAll(fs) ==> !f.raises)
    && Passes(NormalizedAll(excs, parse), today, ViewedAll(fs))
  }

  /** The verdict on parsed exceptions and findings. */
  method Decide(excs: seq<Record>, parse: DateParser, today: int, fs: seq<Finding>) returns (v: Verdict)
    ensures v == Raised <==> exists f :: f in ViewedAll(fs) && f.raises
    ensures v.Exit1? ==> v.issues == Issues(NormalizedAll(excs, parse), today, ViewedAll(fs)) != []
    ensures v == Exit0 <==> Approved(excs, parse, today, fs)
  {
    var es, vs := NormalizedAll(excs, parse), ViewedAll(fs);
    v := DecideNormalized(es, today, vs);
  }

  /** Something in the script raises: an item line without a colon, a title to be joined or a severity to be stripped
      that is a number. */
  ghost predicate ScriptRaises(lines: seq<string>, report: Report) {
    || Parsed(lines).None? || Findings(report).None?
    || exists f :: f in ViewedAll(Findings(report).value) && f.raises
  }

  /** The whole script approves the file and the report. */
  ghost predicate ScriptApproves(lines: seq<string>, report: Report, parse: DateParser, today: int) {
    && Parsed(lines).Some? && Findings(report).Some?
    && Approved(Parsed(lines).value, parse, today, Findings(report).value)
  }

  /** The whole script, on the text of the exception file and the audit report: when it exits with 0, when it raises,
      and what it reports otherwise. */
  method RunGate(text: string, report: Report, parse: DateParser, today: int) returns (v: Verdict)
    ensures v == Exit0 <==> ScriptApproves(Lines(text), report, parse, today)
    ensures v == Raised <==> ScriptRaises(Lines(text), report)
    ensures v.Exit1? ==>
              && Parsed(Lines(text)).Some? && Findings(report).Some?
              && var es, vs := NormalizedAll(Parsed(Lines(text)).value, parse), ViewedAll(Findings(report).value);
                 v.issues == Issues(es, today, vs) != []
  {
    var excs := ParseExceptions(Lines(text));
    if excs.None? {
      return Raised;
    }
    var fs := IterVulns(report);
    if fs.None? {
      return Raised;
    }
    v := Decide(excs.value, parse, today, fs.value);
  }
}
