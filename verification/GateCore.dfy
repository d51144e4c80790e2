/** The core of the audit gate, on normalised exceptions and findings: the index, the deduplicating scan, and what
    their verdict means. */
module GateCore {
  import opened Wrappers

  /** A normalised package and advisory. */
  type Key = (string, string)

  /** An exception after normalisation: whether all required fields are there, its key, its severity, and the day it
      expires if that is a valid date. */
  datatype Exc = Exc(complete: bool, key: Key, severity: string, expires: Option<int>)

  /** A finding after normalisation: whether normalising its severity raises, whether it is named and of high or
      critical severity, its key and severity. */
  datatype Vuln = Vuln(raises: bool, relevant: bool, key: Key, severity: string)

  datatype Indexed = Indexed(severity: string, expires: int)

  datatype Issue = MissingFields | InvalidDate | EmptyKey | Duplicate(key: Key) | NoAdvisory(severity: string)
                 | Mismatch(key: Key) | MissingHeader | NoException(key: Key) | ExpiredHeader | Expired(key: Key)

  // ---------- what the gate promises ----------

  predicate Valid(e: Exc) {
    e.complete && e.expires.Some? && e.key.0 != "" && e.key.1 != ""
  }

  ghost predicate DistinctKeys(es: seq<Exc>) {
    forall i, j :: 0 <= i < j < |es| ==> es[i].key != es[j].key
  }

  /** Every exception is valid, and no two share a key. */
  ghost predicate ExceptionsOK(es: seq<Exc>) {
    (forall e :: e in es ==> Valid(e)) && DistinctKeys(es)
  }

  /** No earlier relevant finding has the same key. */
  ghost predicate First(fs: seq<Vuln>, i: nat)
    requires i < |fs|
  {
    forall j :: 0 <= j < i ==> !(fs[j].relevant && fs[j].key == fs[i].key)
  }

  predicate SeverityFits(e: Exc, f: Vuln) {
    e.severity == "" || e.severity == f.severity
  }

  /** Some exception has the finding's key, an empty or equal severity, and has not expired. */
  ghost predicate Excused(es: seq<Exc>, today: int, f: Vuln) {
    exists e :: e in es && e.key == f.key && SeverityFits(e, f) && e.expires.Some? && today <= e.expires.value
  }

  /** The gate's promise: the exceptions are in order, every relevant finding has an advisory, and the first relevant
      finding of each key is excused. */
  ghost predicate Passes(es: seq<Exc>, today: int, fs: seq<Vuln>) {
    && ExceptionsOK(es)
    && forall i :: 0 <= i < |fs| && fs[i].relevant ==>
         fs[i].key.1 != "" && (First(fs, i) ==> Excused(es, today, fs[i]))
  }

  // ---------- the index ----------

  /** One exception of the index. */
  function IndexOne(entries: map<Key, Indexed>, issues: seq<Issue>, e: Exc): (map<Key, Indexed>, seq<Issue>) {
    if !e.complete then (entries, issues + [MissingFields])
    else if e.expires.None? then (entries, issues + [InvalidDate])
    else if e.key.0 == "" || e.key.1 == "" then (entries, issues + [EmptyKey])
    else if e.key in entries then (entries, issues + [Duplicate(e.key)])
    else (entries[e.key := Indexed(e.severity, e.expires.value)], issues)
  }

  function Index(es: seq<Exc>): (map<Key, Indexed>, seq<Issue>) {
    if es == [] then (map[], [])
    else
      var (entries, issues) := Index(es[..|es| - 1]);
      IndexOne(entries, issues, es[|es| - 1])
  }

  /** The index holds exactly these exceptions. */
  ghost predicate Holds(entries: map<Key, Indexed>, es: seq<Exc>) {
    && (forall k :: k in entries ==> exists e :: e in es && e.key == k)
    && (forall e :: e in es ==>
        e.key in entries && e.expires.Some? && entries[e.key] == Indexed(e.severity, e.expires.value))
  }

  lemma ExceptionsOKStep(init: seq<Exc>, e: Exc)
    ensures ExceptionsOK(init + [e]) <==> ExceptionsOK(init) && Valid(e) && forall x :: x in init ==> x.key != e.key
  {
    var es := init + [e];
    assert forall i :: 0 <= i < |init| ==> es[i] == init[i] && init[i] in init;
    assert es[|init|] == e && e in es;
    if ExceptionsOK(es) {
      assert forall x :: x in init ==> x in es;
      FreshKey(init, e);
    }
  }

  /** Indexing reports nothing exactly when the exceptions are all valid with distinct keys; then the index holds
      exactly them. */
  lemma {:induction false} IndexMeaning(es: seq<Exc>)
    ensures var (entries, issues) := Index(es);
            (issues == [] <==> ExceptionsOK(es)) && (issues == [] ==> Holds(entries, es))
  {
    if es != [] {
      var n := |es| - 1;
      var e, init := es[n], es[..n];
      IndexMeaning(init);
      assert es == init + [e];
      ExceptionsOKStep(init, e);
      var (entries, issues) := Index(init);
      IndexStep(entries, issues, init, e);
    }
  }

  lemma IndexStep(entries: map<Key, Indexed>, issues: seq<Issue>, init: seq<Exc>, e: Exc)
    requires issues == [] ==> Holds(entries, init)
    ensures var (entries', issues') := IndexOne(entries, issues, e);
            && (issues' == [] <==> issues == [] && Valid(e) && forall x :: x in init ==> x.key != e.key)
            && (issues' == [] ==> Holds(entries', init + [e]))
  {
    if issues == [] && Valid(e) && e.key !in entries {
      var es := init + [e];
      assert forall x :: x in es <==> x in init || x == e;
      assert forall x :: x in init ==> x.key != e.key;
    }
  }

  lemma FreshKey(init: seq<Exc>, e: Exc)
    requires DistinctKeys(init + [e])
    ensures forall x :: x in init ==> x.key != e.key
  {
    var es := init + [e];
    forall x | x in init
      ensures x.key != e.key
    {
      var i :| 0 <= i < |init| && init[i] == x;
      assert es[i] == x && es[|init|] == e;
    }
  }

  // ---------- the scan ----------

  datatype Scan = Scan(seen: set<Key>, missing: seq<Key>, expired: seq<Key>, issues: seq<Issue>)

  const START := Scan({}, [], [], [])

  /** One finding of the scan. */
  function ScanOne(s: Scan, f: Vuln, entries: map<Key, Indexed>, today: int): Scan {
    if !f.relevant then s
    else if f.key.1 == "" then s.(issues := s.issues + [NoAdvisory(f.severity)])
    else if f.key in s.seen then s
    else
      var s1 := s.(seen := s.seen + {f.key});
      if f.key !in entries then s1.(missing := s.missing + [f.key])
      else
        var x := entries[f.key];
        s1.(issues := if x.severity != "" && x.severity != f.severity then s.issues + [Mismatch(f.key)] else s.issues,
            expired := if x.expires < today then s.expired + [f.key] else s.expired)
  }

  function ScanAll(fs: seq<Vuln>, entries: map<Key, Indexed>, today: int): Scan {
    if fs == [] then START
    else ScanOne(ScanAll(fs[..|fs| - 1], entries, today), fs[|fs| - 1], entries, today)
  }

  lemma ScanNext(fs: seq<Vuln>, i: nat, entries: map<Key, Indexed>, today: int)
    requires i < |fs|
    ensures ScanAll(fs[..i + 1], entries, today) == ScanOne(ScanAll(fs[..i], entries, today), fs[i], entries, today)
  {
    assert fs[..i + 1][..i] == fs[..i];
  }

  ghost predicate Clean(s: Scan) {
    s.missing == [] && s.expired == [] && s.issues == []
  }

  ghost predicate EntryExcuses(entries: map<Key, Indexed>, today: int, f: Vuln) {
    && f.key in entries
    && (entries[f.key].severity == "" || entries[f.key].severity == f.severity)
    && today <= entries[f.key].expires
  }

  /** A relevant finding with this key and an advisory occurs. */
  ghost predicate Occurs(fs: seq<Vuln>, k: Key) {
    k.1 != "" && exists i :: 0 <= i < |fs| && fs[i].relevant && fs[i].key == k
  }

  lemma OccursStep(init: seq<Vuln>, f: Vuln, k: Key)
    ensures Occurs(init + [f], k) <==> Occurs(init, k) || (k.1 != "" && f.relevant && f.key == k)
  {
    var fs := init + [f];
    if i :| 0 <= i < |fs| && fs[i].relevant && fs[i].key == k {
      assert i == |init| || init[i] == fs[i];
    }
    if i :| 0 <= i < |init| && init[i].relevant && init[i].key == k {
      assert fs[i] == init[i];
    }
    assert fs[|init|] == f;
  }

  lemma ScanStep(s: Scan, f: Vuln, entries: map<Key, Indexed>, today: int, first: bool)
    requires f.relevant && f.key.1 != "" ==> (first <==> f.key !in s.seen)
    ensures Clean(ScanOne(s, f, entries, today)) <==>
            Clean(s) && (f.relevant ==> f.key.1 != "" && (first ==> EntryExcuses(entries, today, f)))
  {
  }

  ghost predicate FindingsOK(fs: seq<Vuln>, entries: map<Key, Indexed>, today: int) {
    forall i :: 0 <= i < |fs| && fs[i].relevant ==>
      fs[i].key.1 != "" && (First(fs, i) ==> EntryExcuses(entries, today, fs[i]))
  }

  lemma FindingsOKStep(init: seq<Vuln>, f: Vuln, entries: map<Key, Indexed>, today: int)
    ensures FindingsOK(init + [f], entries, today) <==>
            && FindingsOK(init, entries, today)
            && (f.relevant ==> f.key.1 != "" && (First(init + [f], |init|) ==> EntryExcuses(entries, today, f)))
  {
    var fs := init + [f];
    forall i | 0 <= i < |init|
      ensures fs[i] == init[i] && (First(fs, i) <==> First(init, i))
    {
      assert forall j :: 0 <= j < i ==> fs[j] == init[j];
    }
    assert fs[|init|] == f;
    if FindingsOK(init, entries, today) &&
      (f.relevant ==> f.key.1 != "" && (First(fs, |init|) ==> EntryExcuses(entries, today, f))) {
      forall i | 0 <= i < |fs| && fs[i].relevant
        ensures fs[i].key.1 != "" && (First(fs, i) ==> EntryExcuses(entries, today, fs[i]))
      {
        if i < |init| {
          assert init[i] == fs[i];
        }
      }
    }
  }

  lemma FirstIsUnseen(init: seq<Vuln>, f: Vuln)
    requires f.key.1 != ""
    ensures First(init + [f], |init|) <==> !Occurs(init, f.key)
  {
    var fs := init + [f];
    assert forall j :: 0 <= j < |init| ==> fs[j] == init[j];
  }

  /** The scan has seen exactly the keys that occur, and stays clean exactly when every relevant finding has an
      advisory and the first of each key has a fitting entry. */
  lemma {:induction false} ScanMeaning(fs: seq<Vuln>, entries: map<Key, Indexed>, today: int)
    ensures var s := ScanAll(fs, entries, today);
            && (forall k :: k in s.seen <==> Occurs(fs, k))
            && (Clean(s) <==> FindingsOK(fs, entries, today))
  {
    if fs != [] {
      var n := |fs| - 1;
      var init, f := fs[..n], fs[n];
      assert fs == init + [f];
      ScanMeaning(init, entries, today);
      var s := ScanAll(init, entries, today);
      if f.key.1 != "" {
        FirstIsUnseen(init, f);
      }
      ScanStep(s, f, entries, today, First(fs, n));
      FindingsOKStep(init, f, entries, today);
      forall k
        ensures k in ScanAll(fs, entries, today).seen <==> Occurs(fs, k)
      {
        OccursStep(init, f, k);
      }
    }
  }

  // ---------- the report ----------

  function Missing(keys: seq<Key>): seq<Issue> {
    if keys == [] then [] else [MissingHeader] + seq(|keys|, i requires 0 <= i < |keys| => NoException(keys[i]))
  }

  function Late(keys: seq<Key>): seq<Issue> {
    if keys == [] then [] else [ExpiredHeader] + seq(|keys|, i requires 0 <= i < |keys| => Expired(keys[i]))
  }

  /** Everything that is reported, in order. */
  function Reported(index: seq<Issue>, s: Scan): seq<Issue> {
    index + s.issues + Missing(s.missing) + Late(s.expired)
  }

  function Issues(es: seq<Exc>, today: int, fs: seq<Vuln>): seq<Issue> {
    var (entries, index) := Index(es);
    Reported(index, ScanAll(fs, entries, today))
  }

  lemma ReportEmpty(index: seq<Issue>, s: Scan)
    ensures Reported(index, s) == [] <==> index == [] && Clean(s)
  {
    assert |Reported(index, s)| == |index| + |s.issues| + |Missing(s.missing)| + |Late(s.expired)|;
  }

  lemma EntryIsException(es: seq<Exc>, entries: map<Key, Indexed>, today: int, f: Vuln)
    requires Holds(entries, es)
    ensures EntryExcuses(entries, today, f) <==> Excused(es, today, f)
  {
    if EntryExcuses(entries, today, f) {
      var e :| e in es && e.key == f.key;
      assert SeverityFits(e, f);
    }
  }

  /** The verdict meets the promise: nothing is reported if and only if the gate is to pass. */
  lemma GateMeaning(es: seq<Exc>, today: int, fs: seq<Vuln>)
    ensures Issues(es, today, fs) == [] <==> Passes(es, today, fs)
  {
    var (entries, index) := Index(es);
    IndexMeaning(es);
    ScanMeaning(fs, entries, today);
    ReportEmpty(index, ScanAll(fs, entries, today));
    if index == [] {
      forall i | 0 <= i < |fs|
        ensures EntryExcuses(entries, today, fs[i]) <==> Excused(es, today, fs[i])
      {
        EntryIsException(es, entries, today, fs[i]);
      }
    }
  }

  // ---------- the loops of the script ----------

  method BuildIndex(es: seq<Exc>) returns (entries: map<Key, Indexed>, issues: seq<Issue>)
    ensures (entries, issues) == Index(es)
  {
    entries, issues := map[], [];
    for i := 0 to |es|
      invariant (entries, issues) == Index(es[..i])
    {
      var e := es[i];
      assert es[..i + 1][..i] == es[..i];
      if !e.complete {
        issues := issues + [MissingFields];
        continue;
      }
      if e.expires.None? {
        issues := issues + [InvalidDate];
        continue;
      }
      if e.key.0 == "" || e.key.1 == "" {
        issues := issues + [EmptyKey];
        continue;
      }
      if e.key in entries {
        issues := issues + [Duplicate(e.key)];
        continue;
      }
      entries := entries[e.key := Indexed(e.severity, e.expires.value)];
    }
    assert es[..|es|] == es;
  }

  /** The deduplicating scan over the findings; it raises at the first severity that cannot be normalised. */
  method ScanFindings(fs: seq<Vuln>, entries: map<Key, Indexed>, today: int) returns (r: Option<Scan>)
    ensures r.None? <==> exists i :: 0 <= i < |fs| && fs[i].raises
    ensures r.Some? ==> r.value == ScanAll(fs, entries, today)
  {
    var seen: set<Key> := {};
    var missing: seq<Key>, expired: seq<Key>, issues: seq<Issue> := [], [], [];
    for i := 0 to |fs|
      invariant forall j :: 0 <= j < i ==> !fs[j].raises
      invariant Scan(seen, missing, expired, issues) == ScanAll(fs[..i], entries, today)
    {
      var f := fs[i];
      ScanNext(fs, i, entries, today);
      if f.raises {
        return None;
      }
      if !f.relevant {
        continue;
      }
      if f.key.1 == "" {
        issues := issues + [NoAdvisory(f.severity)];
        continue;
      }
      if f.key in seen {
        continue;
      }
      seen := seen + {f.key};
      if f.key !in entries {
        missing := missing + [f.key];
        continue;
      }
      var x := entries[f.key];
      if x.severity != "" && x.severity != f.severity {
        issues := issues + [Mismatch(f.key)];
      }
      if x.expires < today {
        expired := expired + [f.key];
      }
    }
    assert fs[..|fs|] == fs;
    return Some(Scan(seen, missing, expired, issues));
  }

  /** Puts the report together; the two lists get a header each, but only if they are not empty. */
  method Assemble(index: seq<Issue>, s: Scan) returns (errors: seq<Issue>)
    ensures errors == Reported(index, s)
    ensures errors == [] <==> index == [] && Clean(s)
  {
    ReportEmpty(index, s);
    errors := index + s.issues;
    if s.missing != [] {
      errors := errors + [MissingHeader];
      for i := 0 to |s.missing|
        invariant errors ==
                    index + s.issues + [MissingHeader] + seq(i, j requires 0 <= j < i => NoException(s.missing[j]))
      {
        errors := errors + [NoException(s.missing[i])];
      }
      assert Missing(s.missing) ==
               [MissingHeader] + seq(|s.missing|, j requires 0 <= j < |s.missing| => NoException(s.missing[j]));
    }
    assert errors == index + s.issues + Missing(s.missing);
    ghost var before := errors;
    if s.expired != [] {
      errors := errors + [ExpiredHeader];
      for i := 0 to |s.expired|
        invariant errors == before + [ExpiredHeader] + seq(i, j requires 0 <= j < i => Expired(s.expired[j]))
      {
        errors := errors + [Expired(s.expired[i])];
      }
      assert Late(s.expired) ==
               [ExpiredHeader] + seq(|s.expired|, j requires 0 <= j < |s.expired| => Expired(s.expired[j]));
    }
  }

  datatype Verdict = Exit0 | Exit1(issues: seq<Issue>) | Raised

  /** The exit code: zero if and only if nothing raises and the gate's promise holds. */
  method DecideNormalized(es: seq<Exc>, today: int, fs: seq<Vuln>) returns (v: Verdict)
    ensures v == Raised <==> exists f :: f in fs && f.raises
    ensures v.Exit1? ==> v.issues == Issues(es, today, fs) != []
    ensures v == Exit0 <==> (forall f :: f in fs ==> !f.raises) && Passes(es, today, fs)
  {
    GateMeaning(es, today, fs);
    var entries, index := BuildIndex(es);
    var scan := ScanFindings(fs, entries, today);
    if scan.None? {
      return Raised;
    }
    var errors := Assemble(index, scan.value);
    if errors != [] {
      return Exit1(errors);
    }
    return Exit0;
  }
}
