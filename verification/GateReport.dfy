/** What the gate reports when it does not pass, issue by issue and in order. */
module GateReport {
  import opened Wrappers
  import opened Sequences
  import opened GateCore

  // ---------- exceptions ----------

  /** An earlier valid exception has the same key. */
  ghost predicate Repeats(es: seq<Exc>, i: nat)
    requires i < |es|
  {
    exists j :: 0 <= j < i && Valid(es[j]) && es[j].key == es[i].key
  }

  /** What is reported of an exception that is not indexed. */
  function Fault(e: Exc): Issue {
    if !e.complete then MissingFields
    else if e.expires.None? then InvalidDate
    else if e.key.0 == "" || e.key.1 == "" then EmptyKey
    else Duplicate(e.key)
  }

  ghost predicate IsValid(es: seq<Exc>, k: Key) {
    exists e :: e in es && Valid(e) && e.key == k
  }

  lemma RepeatsPrefix(es: seq<Exc>, n: nat, i: nat)
    requires i < n <= |es|
    ensures Repeats(es[..n], i) <==> Repeats(es, i)
  {
    if Repeats(es, i) {
      var j :| 0 <= j < i && Valid(es[j]) && es[j].key == es[i].key;
      assert es[..n][j] == es[j];
    }
  }

  lemma RepeatsLast(es: seq<Exc>)
    requires es != []
    ensures var n := |es| - 1;
            Repeats(es, n) <==> IsValid(es[..n], es[n].key)
  {
    var n := |es| - 1;
    if Repeats(es, n) {
      var j :| 0 <= j < n && Valid(es[j]) && es[j].key == es[n].key;
      assert es[..n][j] in es[..n];
    }
    if IsValid(es[..n], es[n].key) {
      var e :| e in es[..n] && Valid(e) && e.key == es[n].key;
      var j :| 0 <= j < n && es[..n][j] == e;
      assert es[j] == e;
    }
  }

  lemma ValidStep(es: seq<Exc>, k: Key)
    requires es != []
    ensures var n := |es| - 1;
            IsValid(es, k) <==> IsValid(es[..n], k) || (Valid(es[n]) && es[n].key == k)
  {
    var n := |es| - 1;
    assert es == es[..n] + [es[n]];
    if IsValid(es, k) {
      var e :| e in es && Valid(e) && e.key == k;
      assert e in es[..n] || e == es[n];
    }
  }

  /** Every exception that is invalid or repeats the key of an earlier valid one is reported, in order, with its first
      fault; the index has the keys of the valid ones, repeated or not. */
  lemma {:induction false} IndexReports(es: seq<Exc>) returns (positions: seq<nat>)
    ensures Picked(Index(es).1, Map(es, Fault), positions)
    ensures forall i :: 0 <= i < |es| ==> (i in positions <==> !Valid(es[i]) || Repeats(es, i))
    ensures forall k :: k in Index(es).0 <==> IsValid(es, k)
  {
    positions := [];
    if es != [] {
      var n := |es| - 1;
      var init := es[..n];
      positions := IndexReports(init);
      RepeatsLast(es);
      forall i | 0 <= i < n
        ensures Repeats(init, i) <==> Repeats(es, i)
      {
        RepeatsPrefix(es, n, i);
      }
      forall k
        ensures IsValid(es, k) <==> IsValid(init, k) || (Valid(es[n]) && es[n].key == k)
      {
        ValidStep(es, k);
      }
      assert Map(es, Fault)[..n] == Map(init, Fault);
      positions := PickedStep(Index(init).1, Map(es, Fault), positions, !Valid(es[n]) || Repeats(es, n));
    }
  }

  /** The index holds the severity and the expiry of the first valid exception of each key. */
  lemma {:induction false} IndexHoldsFirst(es: seq<Exc>, i: nat)
    requires i < |es| && Valid(es[i]) && !Repeats(es, i)
    ensures es[i].key in Index(es).0
    ensures Index(es).0[es[i].key] == Indexed(es[i].severity, es[i].expires.value)
  {
    var n := |es| - 1;
    var positions := IndexReports(es[..n]);
    if i < n {
      RepeatsPrefix(es, n, i);
      assert es[..n][i] == es[i];
      IndexHoldsFirst(es[..n], i);
    } else {
      RepeatsLast(es);
    }
  }

  // ---------- findings ----------

  function KeyOf(f: Vuln): Key {
    f.key
  }

  /** What is recorded of a finding that has no advisory, or an entry of another severity. */
  function Objection(f: Vuln): Issue {
    if f.key.1 == "" then NoAdvisory(f.severity) else Mismatch(f.key)
  }

  /** The finding is looked up: it is relevant, has an advisory, and is the first of its key. */
  ghost predicate LookedUp(fs: seq<Vuln>, i: nat)
    requires i < |fs|
  {
    fs[i].relevant && fs[i].key.1 != "" && First(fs, i)
  }

  ghost predicate IsMissing(fs: seq<Vuln>, i: nat, entries: map<Key, Indexed>)
    requires i < |fs|
  {
    LookedUp(fs, i) && fs[i].key !in entries
  }

  ghost predicate IsExpired(fs: seq<Vuln>, i: nat, entries: map<Key, Indexed>, today: int)
    requires i < |fs|
  {
    LookedUp(fs, i) && fs[i].key in entries && entries[fs[i].key].expires < today
  }

  ghost predicate IsObjected(fs: seq<Vuln>, i: nat, entries: map<Key, Indexed>)
    requires i < |fs|
  {
    || (fs[i].relevant && fs[i].key.1 == "")
    || (LookedUp(fs, i) && fs[i].key in entries && entries[fs[i].key].severity != ""
        && entries[fs[i].key].severity != fs[i].severity)
  }

  lemma FirstPrefix(fs: seq<Vuln>, n: nat)
    requires n <= |fs|
    ensures forall i :: 0 <= i < n ==> (First(fs[..n], i) <==> First(fs, i))
  {
    forall i | 0 <= i < n
      ensures First(fs[..n], i) <==> First(fs, i)
    {
      assert forall j :: 0 <= j <= i ==> fs[..n][j] == fs[j];
    }
  }

  /** The last finding is looked up exactly if it is relevant, has an advisory, and its key was not seen. */
  lemma LastLookedUp(fs: seq<Vuln>, entries: map<Key, Indexed>, today: int)
    requires fs != []
    ensures var n := |fs| - 1;
            LookedUp(fs, n) <==>
              fs[n].relevant && fs[n].key.1 != "" && fs[n].key !in ScanAll(fs[..n], entries, today).seen
  {
    var n := |fs| - 1;
    assert fs == fs[..n] + [fs[n]];
    ScanMeaning(fs[..n], entries, today);
    if fs[n].key.1 != "" {
      FirstIsUnseen(fs[..n], fs[n]);
    }
  }

  /** The keys without an exception are those of the findings that are looked up and have no entry, in order. */
  lemma {:induction false} MissingReported(fs: seq<Vuln>, entries: map<Key, Indexed>, today: int)
    returns (positions: seq<nat>)
    ensures Picked(ScanAll(fs, entries, today).missing, Map(fs, KeyOf), positions)
    ensures forall i :: 0 <= i < |fs| ==> (i in positions <==> IsMissing(fs, i, entries))
  {
    positions := [];
    if fs != [] {
      var n := |fs| - 1;
      var keys := ScanAll(fs[..n], entries, today).missing;
      positions := MissingReported(fs[..n], entries, today);
      FirstPrefix(fs, n);
      LastLookedUp(fs, entries, today);
      assert Map(fs, KeyOf)[..n] == Map(fs[..n], KeyOf);
      positions := PickedStep(keys, Map(fs, KeyOf), positions, IsMissing(fs, n, entries));
    }
  }

  /** The expired keys are those of the findings that are looked up and have an entry that expired, in order. */
  lemma {:induction false} ExpiredReported(fs: seq<Vuln>, entries: map<Key, Indexed>, today: int)
    returns (positions: seq<nat>)
    ensures Picked(ScanAll(fs, entries, today).expired, Map(fs, KeyOf), positions)
    ensures forall i :: 0 <= i < |fs| ==> (i in positions <==> IsExpired(fs, i, entries, today))
  {
    positions := [];
    if fs != [] {
      var n := |fs| - 1;
      var keys := ScanAll(fs[..n], entries, today).expired;
      positions := ExpiredReported(fs[..n], entries, today);
      FirstPrefix(fs, n);
      LastLookedUp(fs, entries, today);
      assert Map(fs, KeyOf)[..n] == Map(fs[..n], KeyOf);
      positions := PickedStep(keys, Map(fs, KeyOf), positions, IsExpired(fs, n, entries, today));
    }
  }

  /** What is reported of single findings: every relevant one without an advisory, and every one that is looked up and
      has an entry of another severity, in order. */
  lemma {:induction false} ObjectionsReported(fs: seq<Vuln>, entries: map<Key, Indexed>, today: int)
    returns (positions: seq<nat>)
    ensures Picked(ScanAll(fs, entries, today).issues, Map(fs, Objection), positions)
    ensures forall i :: 0 <= i < |fs| ==> (i in positions <==> IsObjected(fs, i, entries))
  {
    positions := [];
    if fs != [] {
      var n := |fs| - 1;
      var issues := ScanAll(fs[..n], entries, today).issues;
      positions := ObjectionsReported(fs[..n], entries, today);
      FirstPrefix(fs, n);
      LastLookedUp(fs, entries, today);
      assert Map(fs, Objection)[..n] == Map(fs[..n], Objection);
      positions := PickedStep(issues, Map(fs, Objection), positions, IsObjected(fs, n, entries));
    }
  }

  // ---------- the report ----------

  /** The report lists what was found about the exceptions, what was found about single findings, the keys without an
      exception under a header, and the expired keys under a header; a list that is empty has no header. */
  lemma ReportInOrder(es: seq<Exc>, today: int, fs: seq<Vuln>)
    ensures var r, index := Issues(es, today, fs), Index(es).1;
            var s := ScanAll(fs, Index(es).0, today);
            var a := |index| + |s.issues|;
            var b := a + if s.missing == [] then 0 else 1 + |s.missing|;
            && |r| == b + (if s.expired == [] then 0 else 1 + |s.expired|)
            && r[..|index|] == index && r[|index|..a] == s.issues
            && (s.missing != [] ==> r[a] == MissingHeader)
            && (forall i :: 0 <= i < |s.missing| ==> r[a + 1 + i] == NoException(s.missing[i]))
            && (s.expired != [] ==> r[b] == ExpiredHeader)
            && (forall i :: 0 <= i < |s.expired| ==> r[b + 1 + i] == Expired(s.expired[i]))
  {
    var index, s := Index(es).1, ScanAll(fs, Index(es).0, today);
    Sections(index, s.issues, Missing(s.missing), Late(s.expired));
    assert |Missing(s.missing)| == if s.missing == [] then 0 else 1 + |s.missing|;
    assert |Late(s.expired)| == if s.expired == [] then 0 else 1 + |s.expired|;
  }

  lemma Sections(w: seq<Issue>, x: seq<Issue>, y: seq<Issue>, z: seq<Issue>)
    ensures var r := w + x + y + z;
            && |r| == |w| + |x| + |y| + |z| && r[..|w|] == w && r[|w|..|w| + |x|] == x
            && (forall i :: 0 <= i < |y| ==> r[|w| + |x| + i] == y[i])
            && (forall i :: 0 <= i < |z| ==> r[|w| + |x| + |y| + i] == z[i])
  {
  }
}
