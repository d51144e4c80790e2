/** The vulnerabilities an audit report yields, from either of its two layouts. */
module AuditFindings {
  import opened Wrappers
  import opened PyStrings

  /** A field of the report: missing or null, a string, or a number. */
  datatype Scalar = Absent | Text(s: string) | Number(n: int) {
    predicate Truthy() {
      match this
      case Absent => false
      case Text(s) => s != ""
      case Number(n) => n != 0
    }

    /** `a or b` */
    function Or(other: Scalar): Scalar {
      if Truthy() then this else other
    }

    function Str(): string {
      match this
      case Absent => ""
      case Text(s) => s
      case Number(n) => Decimal(n)
    }
  }

  datatype Advisory = Advisory(moduleName: Scalar, name: Scalar, severity: Scalar, githubID: Scalar, url: Scalar,
                               cves: seq<Scalar>, id: Scalar, title: Scalar, advisory: Scalar, overview: Scalar)

  /** One cause of a vulnerability: an object, a package name, or something else that is skipped. */
  datatype Via = ViaObject(githubID: Scalar, url: Scalar, source: Scalar, title: Scalar, name: Scalar, advisory: Scalar)
               | ViaName(s: string) | ViaOther

  /** The causes: a list (also when missing), a single package name, or something else that is skipped. */
  datatype Causes = CauseList(items: seq<Via>) | CauseName(s: string) | CauseOther

  datatype Vulnerability = Vulnerability(name: string, severity: Scalar, via: Causes)

  datatype Report = Report(advisories: seq<Advisory>, vulnerabilities: seq<Vulnerability>)

  datatype Finding = Finding(name: Scalar, severity: Scalar, advisory: Scalar)

  /** The first usable identifier of an advisory, the stablest first. */
  function PickAdvisoryID(a: Advisory): Scalar {
    var cve := if a.cves == [] then Absent else a.cves[0];
    var id := if a.id.Absent? then Absent else Text(a.id.Str());
    a.githubID.Or(a.url).Or(cve).Or(id).Or(a.title).Or(a.advisory).Or(a.overview)
  }

  function AdvisoryFinding(a: Advisory): Finding {
    Finding(a.moduleName.Or(a.name), a.severity, PickAdvisoryID(a))
  }

  function ViaID(v: Via): Scalar {
    match v
    case ViaObject(githubID, url, source, title, name, _) => githubID.Or(url).Or(source).Or(title).Or(name)
    case ViaName(s) => Text(s)
    case ViaOther => Absent
  }

  /** The title of a cause; joining the titles raises if one is a number. */
  function ViaTitle(v: Via): Scalar {
    match v
    case ViaObject(_, url, source, title, _, advisory) => title.Or(url).Or(advisory).Or(source)
    case ViaName(s) => Text(s)
    case ViaOther => Absent
  }

  function ViaItems(c: Causes): seq<Via> {
    match c
    case CauseList(items) => items
    case CauseName(s) => [ViaName(s)]
    case CauseOther => []
  }

  /** Joining the titles raises: some cause's title is a number other than zero. */
  predicate TitleRaises(v: Vulnerability) {
    exists i :: 0 <= i < |ViaItems(v.via)| && ViaTitle(ViaItems(v.via)[i]).Number? &&
      ViaTitle(ViaItems(v.via)[i]).Truthy()
  }

  function AdvisoryFindings(advisories: seq<Advisory>): seq<Finding> {
    if advisories == [] then []
    else
      var n := |advisories| - 1;
      AdvisoryFindings(advisories[..n]) + [AdvisoryFinding(advisories[n])]
  }

  /** One finding for every cause with an identifier. */
  function ViaFindings(name: string, severity: Scalar, items: seq<Via>): seq<Finding> {
    if items == [] then []
    else
      var n := |items| - 1;
      var r := ViaFindings(name, severity, items[..n]);
      if ViaID(items[n]).Truthy() then r + [Finding(Text(name), severity, ViaID(items[n]))] else r
  }

  /** The findings of one vulnerability; None if producing them raises. */
  function FindingsOf(v: Vulnerability): Option<seq<Finding>> {
    if TitleRaises(v) then None else Some(ViaFindings(v.name, v.severity, ViaItems(v.via)))
  }

  function VulnerabilityFindings(vs: seq<Vulnerability>): seq<Finding> {
    if vs == [] then []
    else
      var v := vs[|vs| - 1];
      VulnerabilityFindings(vs[..|vs| - 1]) + ViaFindings(v.name, v.severity, ViaItems(v.via))
  }

  /** All findings of a report, in order; None if producing them raises. */
  function Findings(report: Report): Option<seq<Finding>> {
    if exists v :: v in report.vulnerabilities && FindingsOf(v).None? then None
    else Some(AdvisoryFindings(report.advisories) + VulnerabilityFindings(report.vulnerabilities))
  }

  /** Collects the causes of one vulnerability: their identifiers and titles. */
  method CollectVia(items: seq<Via>) returns (ids: seq<Scalar>, titles: seq<Scalar>)
    ensures |ids| == |titles| == |items|
    ensures forall i :: 0 <= i < |items| ==> ids[i] == ViaID(items[i]) && titles[i] == ViaTitle(items[i])
  {
    ids, titles := [], [];
    for i := 0 to |items|
      invariant |ids| == |titles| == i
      invariant forall j :: 0 <= j < i ==> ids[j] == ViaID(items[j]) && titles[j] == ViaTitle(items[j])
    {
      match items[i] {
        case ViaObject(githubID, url, source, title, name, advisory) =>
          ids := ids + [githubID.Or(url).Or(source).Or(title).Or(name)];
          titles := titles + [title.Or(url).Or(advisory).Or(source)];
        case ViaName(s) =>
          ids, titles := ids + [Text(s)], titles + [Text(s)];
        case ViaOther =>
          ids, titles := ids + [Absent], titles + [Absent];
      }
    }
  }

  method IterVulnerability(v: Vulnerability) returns (r: Option<seq<Finding>>)
    ensures r == FindingsOf(v)
  {
    var items := ViaItems(v.via);
    var ids, titles := CollectVia(items);
    var found: seq<Finding> := [];
    for i := 0 to |titles|
      invariant forall j :: 0 <= j < i ==> !(titles[j].Number? && titles[j].Truthy())
    {
      if titles[i].Number? && titles[i].Truthy() {
        return None;
      }
    }
    for i := 0 to |ids|
      invariant found == ViaFindings(v.name, v.severity, items[..i])
    {
      assert items[..i + 1][..i] == items[..i];
      if ids[i].Truthy() {
        found := found + [Finding(Text(v.name), v.severity, ids[i])];
      }
    }
    assert items[..|items|] == items;
    return Some(found);
  }

  method IterAdvisories(advisories: seq<Advisory>) returns (found: seq<Finding>)
    ensures found == AdvisoryFindings(advisories)
  {
    found := [];
    for i := 0 to |advisories|
      invariant found == AdvisoryFindings(advisories[..i])
    {
      assert advisories[..i + 1][..i] == advisories[..i];
      found := found + [AdvisoryFinding(advisories[i])];
    }
    assert advisories[..|advisories|] == advisories;
  }

  lemma VulnerabilityFindingsStep(vs: seq<Vulnerability>, i: nat)
    requires i < |vs| && FindingsOf(vs[i]).Some?
    ensures VulnerabilityFindings(vs[..i + 1]) == VulnerabilityFindings(vs[..i]) + FindingsOf(vs[i]).value
  {
    assert vs[..i + 1][..i] == vs[..i];
  }

  method IterVulnerabilities(vs: seq<Vulnerability>) returns (r: Option<seq<Finding>>)
    ensures r == if exists v :: v in vs && FindingsOf(v).None? then None else Some(VulnerabilityFindings(vs))
  {
    var found: seq<Finding> := [];
    for i := 0 to |vs|
      invariant found == VulnerabilityFindings(vs[..i])
      invariant forall v :: v in vs[..i] ==> FindingsOf(v).Some?
    {
      var next := IterVulnerability(vs[i]);
      if next.None? {
        return None;
      }
      VulnerabilityFindingsStep(vs, i);
      assert vs[..i + 1] == vs[..i] + [vs[i]];
      found := found + next.value;
    }
    assert vs[..|vs|] == vs;
    return Some(found);
  }

  /** Yields the findings of both layouts, advisories first. */
  method IterVulns(report: Report) returns (r: Option<seq<Finding>>)
    ensures r == Findings(report)
  {
    var found := IterAdvisories(report.advisories);
    var more := IterVulnerabilities(report.vulnerabilities);
    return if more.None? then None else Some(found + more.value);
  }

  // ---------- what the findings are ----------

  lemma {:induction false} AdvisoryFindingsMeaning(advisories: seq<Advisory>)
    ensures forall f :: f in AdvisoryFindings(advisories) <==> exists a :: a in advisories && f == AdvisoryFinding(a)
  {
    if advisories != [] {
      var n := |advisories| - 1;
      AdvisoryFindingsMeaning(advisories[..n]);
      assert advisories == advisories[..n] + [advisories[n]];
    }
  }

  lemma {:induction false} ViaFindingsMeaning(name: string, severity: Scalar, items: seq<Via>)
    ensures forall f :: f in ViaFindings(name, severity, items) <==>
              exists v :: v in items && ViaID(v).Truthy() && f == Finding(Text(name), severity, ViaID(v))
  {
    if items != [] {
      var n := |items| - 1;
      ViaFindingsMeaning(name, severity, items[..n]);
      assert items == items[..n] + [items[n]];
    }
  }

  /** c is a cause: an element of the list, or the one package name there is. */
  ghost predicate IsCause(via: Causes, c: Via) {
    (via.CauseList? && c in via.items) || (via.CauseName? && c == ViaName(via.s))
  }

  /** x identifies a cause: a package name that is not empty, or the first of the fields GitHub id, url, source, title
      and name of an object that is neither missing nor empty nor zero. */
  ghost predicate Identifies(c: Via, x: Scalar) {
    match c
    case ViaName(s) => s != "" && x == Text(s)
    case ViaOther => false
    case ViaObject(githubID, url, source, title, name, _) =>
      || (x == githubID && githubID.Truthy())
      || (x == url && url.Truthy() && !githubID.Truthy())
      || (x == source && source.Truthy() && !githubID.Truthy() && !url.Truthy())
      || (x == title && title.Truthy() && !githubID.Truthy() && !url.Truthy() && !source.Truthy())
      || (x == name && name.Truthy() && !githubID.Truthy() && !url.Truthy() && !source.Truthy() && !title.Truthy())
  }

  lemma ViaIDIdentifies(c: Via)
    ensures forall x :: Identifies(c, x) <==> x == ViaID(c) && ViaID(c).Truthy()
  {
  }

  /** An object has no identifier exactly if its five fields are all missing, empty or zero. */
  lemma NoIdentifier(c: Via)
    requires c.ViaObject?
    ensures (forall x :: !Identifies(c, x)) <==>
              && !c.githubID.Truthy() && !c.url.Truthy() && !c.source.Truthy() && !c.title.Truthy()
              && !c.name.Truthy()
  {
    if c.githubID.Truthy() {
      assert Identifies(c, c.githubID);
    } else if c.url.Truthy() {
      assert Identifies(c, c.url);
    } else if c.source.Truthy() {
      assert Identifies(c, c.source);
    } else if c.title.Truthy() {
      assert Identifies(c, c.title);
    } else if c.name.Truthy() {
      assert Identifies(c, c.name);
    }
  }

  /** The finding is of the vulnerability's name and severity, and one of its causes is identified by its advisory. */
  ghost predicate CausedBy(v: Vulnerability, f: Finding) {
    && f.name == Text(v.name) && f.severity == v.severity
    && exists c :: IsCause(v.via, c) && Identifies(c, f.advisory)
  }

  lemma CausedByMeaning(v: Vulnerability, f: Finding)
    ensures CausedBy(v, f) <==> f in ViaFindings(v.name, v.severity, ViaItems(v.via))
  {
    ViaFindingsMeaning(v.name, v.severity, ViaItems(v.via));
    forall c
      ensures IsCause(v.via, c) <==> c in ViaItems(v.via)
      ensures Identifies(c, f.advisory) <==> f.advisory == ViaID(c) && ViaID(c).Truthy()
    {
      ViaIDIdentifies(c);
    }
  }

  lemma {:induction false} VulnerabilityFindingsMeaning(vs: seq<Vulnerability>)
    ensures forall f :: f in VulnerabilityFindings(vs) <==> exists v :: v in vs && CausedBy(v, f)
  {
    if vs != [] {
      var n := |vs| - 1;
      VulnerabilityFindingsMeaning(vs[..n]);
      forall f
        ensures f in VulnerabilityFindings(vs) <==> exists v :: v in vs && CausedBy(v, f)
      {
        CausedByMeaning(vs[n], f);
        assert vs == vs[..n] + [vs[n]];
        assert f in VulnerabilityFindings(vs) <==> f in VulnerabilityFindings(vs[..n]) || CausedBy(vs[n], f);
        if CausedBy(vs[n], f) {
          assert vs[n] in vs;
        }
        if v :| v in vs && CausedBy(v, f) {
          assert v in vs[..n] || v == vs[n];
        }
      }
    }
  }

  /** The name of an advisory is its module's, or else its own; its severity is taken as it is. */
  lemma AdvisoryNamed(a: Advisory)
    ensures AdvisoryFinding(a).severity == a.severity
    ensures AdvisoryFinding(a).name == if a.moduleName.Truthy() then a.moduleName else a.name
  {
  }

  /** The identifier of an advisory is the first field that serves, in this order: the GitHub id, the url, the first
      CVE, the id as a text, the title, the advisory text, the overview. */
  lemma PickedInOrder(a: Advisory)
    ensures var cve := a.cves != [] && a.cves[0].Truthy();
            var id := a.id.Number? || a.id.Truthy();
            var x := PickAdvisoryID(a);
            && (a.githubID.Truthy() ==> x == a.githubID)
            && (!a.githubID.Truthy() && a.url.Truthy() ==> x == a.url)
            && (!a.githubID.Truthy() && !a.url.Truthy() && cve ==> x == a.cves[0])
            && (!a.githubID.Truthy() && !a.url.Truthy() && !cve && id ==>
                  x == Text(if a.id.Number? then Decimal(a.id.n) else a.id.s))
            && (!a.githubID.Truthy() && !a.url.Truthy() && !cve && !id ==>
                  x == if a.title.Truthy() then a.title else if a.advisory.Truthy() then a.advisory else a.overview)
  {
    if a.id.Number? {
      DecimalNonEmpty(a.id.n);
    }
  }

  /** A package name that is not empty, in the list or alone, yields a finding with that name as its advisory. */
  lemma NamedCauseFound(report: Report, v: Vulnerability, s: string)
    requires Findings(report).Some? && v in report.vulnerabilities && s != ""
    requires v.via == CauseName(s) || (v.via.CauseList? && ViaName(s) in v.via.items)
    ensures Finding(Text(v.name), v.severity, Text(s)) in Findings(report).value
  {
    var f := Finding(Text(v.name), v.severity, Text(s));
    assert IsCause(v.via, ViaName(s)) && Identifies(ViaName(s), f.advisory);
    FindingsMeaning(report, f);
  }

  /** An object yields a finding with the first of its fields that serves. */
  lemma ObjectCauseFound(report: Report, v: Vulnerability, c: Via)
    requires Findings(report).Some? && v in report.vulnerabilities && v.via.CauseList?
    requires c in v.via.items && c.ViaObject?
    requires c.githubID.Truthy() || c.url.Truthy() || c.source.Truthy() || c.title.Truthy() || c.name.Truthy()
    ensures var x := if c.githubID.Truthy() then c.githubID
                     else if c.url.Truthy() then c.url
                     else if c.source.Truthy() then c.source
                     else if c.title.Truthy() then c.title else c.name;
            Finding(Text(v.name), v.severity, x) in Findings(report).value
  {
    ViaIDIdentifies(c);
    var f := Finding(Text(v.name), v.severity, ViaID(c));
    assert IsCause(v.via, c) && Identifies(c, f.advisory);
    FindingsMeaning(report, f);
  }

  /** The title of an object is a number: the first of title, url, advisory and source that is neither missing nor empty
      nor zero. */
  ghost predicate NumericTitle(c: Via) {
    match c
    case ViaObject(_, url, source, title, _, advisory) =>
      || (title.Number? && title.n != 0)
      || (!title.Truthy() && url.Number? && url.n != 0)
      || (!title.Truthy() && !url.Truthy() && advisory.Number? && advisory.n != 0)
      || (!title.Truthy() && !url.Truthy() && !advisory.Truthy() && source.Number? && source.n != 0)
    case _ => false
  }

  /** Producing the findings raises exactly if some cause of some vulnerability has a numeric title. */
  lemma FindingsRaise(report: Report)
    ensures Findings(report).None? <==>
              exists v, c :: v in report.vulnerabilities && IsCause(v.via, c) && NumericTitle(c)
  {
    forall v: Vulnerability
      ensures TitleRaises(v) <==> exists c :: IsCause(v.via, c) && NumericTitle(c)
    {
      var items := ViaItems(v.via);
      forall c
        ensures IsCause(v.via, c) <==> c in items
        ensures NumericTitle(c) <==> ViaTitle(c).Number? && ViaTitle(c).Truthy()
      {
      }
      if c :| c in items && NumericTitle(c) {
        var i :| 0 <= i < |items| && items[i] == c;
      }
    }
  }

  // ---------- their order ----------

  /** Every advisory yields one finding, in order. */
  lemma {:induction false} AdvisoriesInOrder(advisories: seq<Advisory>)
    ensures |AdvisoryFindings(advisories)| == |advisories|
    ensures forall i :: 0 <= i < |advisories| ==> AdvisoryFindings(advisories)[i] == AdvisoryFinding(advisories[i])
  {
    if advisories != [] {
      AdvisoriesInOrder(advisories[..|advisories| - 1]);
    }
  }

  /** The causes of one vulnerability yield findings in order, one each if they have an identifier. */
  lemma {:induction false} CausesInOrder(name: string, severity: Scalar, items: seq<Via>) returns (positions: seq<nat>)
    ensures var fs := ViaFindings(name, severity, items);
            && |positions| == |fs|
            && (forall k :: 0 <= k < |fs| ==>
                  && positions[k] < |items| && Identifies(items[positions[k]], fs[k].advisory)
                  && fs[k].name == Text(name) && fs[k].severity == severity)
            && (forall j, k :: 0 <= j < k < |fs| ==> positions[j] < positions[k])
    ensures forall i :: 0 <= i < |items| ==> (i in positions <==> exists x :: Identifies(items[i], x))
  {
    positions := [];
    if items != [] {
      var n := |items| - 1;
      positions := CausesInOrder(name, severity, items[..n]);
      ViaIDIdentifies(items[n]);
      if ViaID(items[n]).Truthy() {
        assert Identifies(items[n], ViaID(items[n]));
        positions := positions + [n];
      }
    }
  }

  lemma LastVulnerability(vs: seq<Vulnerability>, v: Vulnerability)
    ensures VulnerabilityFindings(vs + [v]) ==
            VulnerabilityFindings(vs) + ViaFindings(v.name, v.severity, ViaItems(v.via))
  {
    assert (vs + [v])[..|vs|] == vs;
  }

  lemma Regrouped(a: seq<Finding>, b: seq<Finding>, c: seq<Finding>)
    ensures (a + b) + c == a + (b + c)
  {
  }

  /** The findings of vulnerabilities come one vulnerability after the other. */
  lemma {:induction false} VulnerabilitiesInOrder(vs: seq<Vulnerability>, ws: seq<Vulnerability>)
    ensures VulnerabilityFindings(vs + ws) == VulnerabilityFindings(vs) + VulnerabilityFindings(ws)
    decreases |ws|
  {
    if ws == [] {
      assert vs + ws == vs;
    } else {
      var init, w := ws[..|ws| - 1], ws[|ws| - 1];
      assert ws == init + [w] && vs + ws == (vs + init) + [w];
      VulnerabilitiesInOrder(vs, init);
      LastVulnerability(vs + init, w);
      LastVulnerability(init, w);
      Regrouped(VulnerabilityFindings(vs), VulnerabilityFindings(init),
                ViaFindings(w.name, w.severity, ViaItems(w.via)));
    }
  }

  /** A report's findings are those of its advisories, one each, and then those of its vulnerabilities. */
  lemma FindingsInOrder(report: Report)
    requires Findings(report).Some?
    ensures var fs, n := Findings(report).value, |report.advisories|;
            && n <= |fs| && (forall i :: 0 <= i < n ==> fs[i] == AdvisoryFinding(report.advisories[i]))
            && fs[n..] == VulnerabilityFindings(report.vulnerabilities)
  {
    AdvisoriesInOrder(report.advisories);
  }

  /** A report finds exactly its advisories and, for every vulnerability, its causes that have an identifier. */
  lemma FindingsMeaning(report: Report, f: Finding)
    requires Findings(report).Some?
    ensures f in Findings(report).value <==>
              || (exists a :: a in report.advisories && f == AdvisoryFinding(a))
              || (exists v :: v in report.vulnerabilities && CausedBy(v, f))
  {
    AdvisoryFindingsMeaning(report.advisories);
    VulnerabilityFindingsMeaning(report.vulnerabilities);
  }

  /** An advisory has no usable identifier exactly when every field that could serve is missing, empty or zero; a
      numeric id serves even when it is zero. */
  lemma PickAdvisoryIDMeaning(a: Advisory)
    ensures PickAdvisoryID(a).Truthy() <==>
              || a.githubID.Truthy() || a.url.Truthy() || (a.cves != [] && a.cves[0].Truthy())
              || a.id.Number? || a.id.Truthy() || a.title.Truthy() || a.advisory.Truthy() || a.overview.Truthy()
    ensures a.githubID.Truthy() ==> PickAdvisoryID(a) == a.githubID
  {
    if a.id.Number? {
      DecimalNonEmpty(a.id.n);
    }
  }

  lemma DecimalNonEmpty(n: int)
    ensures Decimal(n) != ""
  {
    if n >= 0 {
      DigitsNonEmpty(n);
    }
  }

  lemma DigitsNonEmpty(n: nat)
    ensures Digits(n) != ""
  {
  }
}
