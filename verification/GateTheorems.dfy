/** What does and does not change the verdict of the audit gate. */
module GateTheorems {
  import opened Wrappers
  import opened Sequences
  import opened GateCore

  // ---------- deduplication ----------

  /** The first relevant finding of a key that occurs. */
  lemma {:induction false} FirstExists(fs: seq<Vuln>, i: nat) returns (j: nat)
    requires i < |fs| && fs[i].relevant
    ensures j <= i && fs[j].relevant && fs[j].key == fs[i].key && First(fs, j)
  {
    if First(fs, i) {
      j := i;
    } else {
      var k :| 0 <= k < i && fs[k].relevant && fs[k].key == fs[i].key;
      j := FirstExists(fs, k);
    }
  }

  /** Looking only at the first finding of each key does not weaken the gate on existence or expiry: if it passes,
      every relevant finding has an exception that has not expired. */
  lemma DedupKeepsExpiry(es: seq<Exc>, today: int, fs: seq<Vuln>, i: nat)
    requires Passes(es, today, fs) && i < |fs| && fs[i].relevant
    ensures exists e :: e in es && e.key == fs[i].key && e.expires.Some? && today <= e.expires.value
  {
    var j := FirstExists(fs, i);
    assert Excused(es, today, fs[j]);
  }

  /** The gate without deduplication: every relevant finding is excused, severity included. */
  ghost predicate PassesStrictly(es: seq<Exc>, today: int, fs: seq<Vuln>) {
    && ExceptionsOK(es)
    && forall f :: f in fs && f.relevant ==> f.key.1 != "" && Excused(es, today, f)
  }

  /** Deduplication does weaken the gate on severity, exactly as far as the order of the findings decides which one
      comes first: the strict gate passes if and only if the gate passes for every order. */
  lemma StrictIffEveryOrder(es: seq<Exc>, today: int, fs: seq<Vuln>)
    ensures PassesStrictly(es, today, fs) <==>
              forall gs: seq<Vuln> :: multiset(gs) == multiset(fs) ==> Passes(es, today, gs)
  {
    if PassesStrictly(es, today, fs) {
      forall gs: seq<Vuln> | multiset(gs) == multiset(fs)
        ensures Passes(es, today, gs)
      {
        PermutationKeepsNoDup(fs, gs);
        assert forall i :: 0 <= i < |gs| ==> gs[i] in fs;
      }
    } else {
      assert multiset(fs) == multiset(fs);
      if ExceptionsOK(es) {
        var f :| f in fs && f.relevant && !(f.key.1 != "" && Excused(es, today, f));
        var i :| 0 <= i < |fs| && fs[i] == f;
        var gs := [fs[i]] + fs[..i] + fs[i + 1..];
        FrontPermutes(fs, i);
        assert gs[0] == f && First(gs, 0);
        assert !Passes(es, today, gs);
      } else {
        assert !Passes(es, today, fs);
      }
    }
  }

  lemma FrontPermutes<T>(s: seq<T>, i: nat)
    requires i < |s|
    ensures multiset([s[i]] + s[..i] + s[i + 1..]) == multiset(s)
  {
    assert s == s[..i] + [s[i]] + s[i + 1..];
  }

  /** A key whose finding of fitting severity comes first hides a later one of another severity: the same findings
      pass in one order and fail in the other. */
  lemma OrderMatters()
    ensures var es := [Exc(true, ("p", "a"), "high", Some(1))];
            var f, g := Vuln(false, true, ("p", "a"), "high"), Vuln(false, true, ("p", "a"), "critical");
            Passes(es, 0, [f, g]) && !Passes(es, 0, [g, f])
  {
    var e := Exc(true, ("p", "a"), "high", Some(1));
    var es := [e];
    var f, g := Vuln(false, true, ("p", "a"), "high"), Vuln(false, true, ("p", "a"), "critical");
    assert e in es && SeverityFits(e, f);
    assert Excused(es, 0, f);
    assert !First([f, g], 1) by {
      assert [f, g][0] == f;
    }
    assert First([g, f], 0) && [g, f][0] == g;
    assert "high" != "critical" by {
      assert |"high"| != |"critical"|;
    }
    assert !Excused(es, 0, g);
  }

  // ---------- order and repetition ----------

  lemma PermutedExcused(es: seq<Exc>, es': seq<Exc>, today: int, f: Vuln)
    requires forall e :: e in es <==> e in es'
    ensures Excused(es, today, f) <==> Excused(es', today, f)
  {
  }

  lemma PermutedKeysDistinct(es: seq<Exc>, es': seq<Exc>)
    requires multiset(es) == multiset(es') && DistinctKeys(es)
    ensures DistinctKeys(es')
  {
    assert NoDup(es);
    PermutationKeepsNoDup(es, es');
    forall i, j | 0 <= i < j < |es'|
      ensures es'[i].key != es'[j].key
    {
      assert es'[i] in es && es'[j] in es;
      var p :| 0 <= p < |es| && es[p] == es'[i];
      var q :| 0 <= q < |es| && es[q] == es'[j];
      assert p != q;
      assert p < q || q < p;
    }
  }

  /** The order of the exceptions does not matter. */
  lemma ExceptionOrderIrrelevant(es: seq<Exc>, es': seq<Exc>, today: int, fs: seq<Vuln>)
    requires multiset(es) == multiset(es')
    ensures Passes(es, today, fs) <==> Passes(es', today, fs)
  {
    PermutationKeepsNoDup(es, es');
    if DistinctKeys(es) {
      PermutedKeysDistinct(es, es');
    }
    if DistinctKeys(es') {
      PermutedKeysDistinct(es', es);
    }
    assert ExceptionsOK(es) <==> ExceptionsOK(es');
    forall i | 0 <= i < |fs|
      ensures Excused(es, today, fs[i]) <==> Excused(es', today, fs[i])
    {
      PermutedExcused(es, es', today, fs[i]);
    }
  }

  /** Relevant findings with the same key have the same severity. */
  ghost predicate SeveritiesAgree(fs: seq<Vuln>) {
    forall f, g :: f in fs && g in fs && f.relevant && g.relevant && f.key == g.key ==> f.severity == g.severity
  }

  lemma FindingsTransfer(es: seq<Exc>, today: int, fs: seq<Vuln>, gs: seq<Vuln>)
    requires SeveritiesAgree(fs) && (forall f :: f in gs ==> f in fs)
    requires Passes(es, today, fs)
    ensures Passes(es, today, gs)
  {
    forall i | 0 <= i < |gs| && gs[i].relevant
      ensures gs[i].key.1 != "" && Excused(es, today, gs[i])
    {
      assert gs[i] in fs;
      var k :| 0 <= k < |fs| && fs[k] == gs[i];
      var j := FirstExists(fs, k);
      assert fs[j] in fs && fs[k] in fs;
      assert fs[j].severity == gs[i].severity;
      assert Excused(es, today, fs[j]);
    }
  }

  /** Where findings of one key agree on their severity, neither their order nor their repetition matters. */
  lemma FindingOrderIrrelevant(es: seq<Exc>, today: int, fs: seq<Vuln>, gs: seq<Vuln>)
    requires SeveritiesAgree(fs) && forall f :: f in fs <==> f in gs
    ensures Passes(es, today, fs) <==> Passes(es, today, gs)
  {
    if Passes(es, today, fs) {
      FindingsTransfer(es, today, fs, gs);
    }
    if Passes(es, today, gs) {
      FindingsTransfer(es, today, gs, fs);
    }
  }

  /** Feeding the findings twice changes nothing, whatever their severities. */
  lemma TwiceIsOnce(es: seq<Exc>, today: int, fs: seq<Vuln>)
    ensures Passes(es, today, fs + fs) <==> Passes(es, today, fs)
  {
    var gs := fs + fs;
    forall i | 0 <= i < |fs|
      ensures gs[i] == fs[i] && (First(gs, i) <==> First(fs, i))
    {
      assert forall j :: 0 <= j < i ==> gs[j] == fs[j];
    }
    if Passes(es, today, fs) {
      forall i | 0 <= i < |gs| && gs[i].relevant
        ensures gs[i].key.1 != "" && (First(gs, i) ==> Excused(es, today, gs[i]))
      {
        if |fs| <= i {
          assert gs[i - |fs|] == gs[i] == fs[i - |fs|];
        }
      }
    }
    if Passes(es, today, gs) {
      forall i | 0 <= i < |fs| && fs[i].relevant
        ensures fs[i].key.1 != "" && (First(fs, i) ==> Excused(es, today, fs[i]))
      {
        assert gs[i] == fs[i];
      }
    }
  }

  // ---------- for which findings deduplication is harmless ----------

  /** Some relevant finding has a key that no exception can have. */
  ghost predicate Unlistable(fs: seq<Vuln>) {
    exists f :: f in fs && f.relevant && (f.key.0 == "" || f.key.1 == "")
  }

  lemma UnlistableFails(es: seq<Exc>, today: int, fs: seq<Vuln>)
    requires Unlistable(fs)
    ensures !Passes(es, today, fs)
  {
    var f :| f in fs && f.relevant && (f.key.0 == "" || f.key.1 == "");
    var i :| 0 <= i < |fs| && fs[i] == f;
    if Passes(es, today, fs) {
      DedupKeepsExpiry(es, today, fs, i);
    }
  }

  /** The exceptions that excuse exactly the first finding of each key up to a day: one per key, with that finding's
      severity. */
  ghost function Listing(fs: seq<Vuln>, day: int): seq<Exc> {
    if fs == [] then []
    else
      var es, f := Listing(fs[..|fs| - 1], day), fs[|fs| - 1];
      if !f.relevant || Listed(es, f.key) then es else es + [Exc(true, f.key, f.severity, Some(day))]
  }

  ghost predicate Listed(es: seq<Exc>, k: Key) {
    exists e :: e in es && e.key == k
  }

  lemma {:induction false} ListingMeaning(fs: seq<Vuln>, day: int)
    ensures var es := Listing(fs, day);
            && DistinctKeys(es)
            && (forall e :: e in es ==>
                exists f :: f in fs && f.relevant && e == Exc(true, f.key, f.severity, Some(day)))
            && (forall i :: 0 <= i < |fs| && fs[i].relevant ==>
                  Listed(es, fs[i].key) && (First(fs, i) ==> Exc(true, fs[i].key, fs[i].severity, Some(day)) in es))
  {
    if fs != [] {
      var n := |fs| - 1;
      var init, f := fs[..n], fs[n];
      var es, es' := Listing(init, day), Listing(fs, day);
      ListingMeaning(init, day);
      assert fs == init + [f] && f in fs;
      assert forall e :: e in es ==> e in es';
      if es' != es {
        assert es'[|es|] in es';
      }
      forall i | 0 <= i < |fs| && fs[i].relevant
        ensures Listed(es', fs[i].key) && (First(fs, i) ==> Exc(true, fs[i].key, fs[i].severity, Some(day)) in es')
      {
        if i < n {
          assert init[i] == fs[i] && (First(fs, i) ==> First(init, i));
        } else if First(fs, n) && Listed(es, f.key) {
          ListedOccurs(init, es, f.key, day);
        }
      }
    }
  }

  lemma ListedOccurs(fs: seq<Vuln>, es: seq<Exc>, k: Key, day: int)
    requires Listed(es, k)
    requires forall e :: e in es ==> exists f :: f in fs && f.relevant && e == Exc(true, f.key, f.severity, Some(day))
    ensures exists j :: 0 <= j < |fs| && fs[j].relevant && fs[j].key == k
  {
    var e :| e in es && e.key == k;
    var f :| f in fs && f.relevant && e == Exc(true, f.key, f.severity, Some(day));
    var j :| 0 <= j < |fs| && fs[j] == f;
  }

  /** Findings that can be listed pass with their listing. */
  lemma ListingPasses(fs: seq<Vuln>, day: int)
    requires !Unlistable(fs)
    ensures Passes(Listing(fs, day), day, fs)
  {
    var es := Listing(fs, day);
    ListingMeaning(fs, day);
    forall i | 0 <= i < |fs| && fs[i].relevant
      ensures fs[i].key.1 != "" && (First(fs, i) ==> Excused(es, day, fs[i]))
    {
      assert fs[i] in fs;
      if First(fs, i) {
        var e := Exc(true, fs[i].key, fs[i].severity, Some(day));
        assert e in es && SeverityFits(e, fs[i]);
      }
    }
  }

  /** No strict gate passes two findings of one key and different severities with an exception that names one. */
  lemma DisagreeingFail(es: seq<Exc>, today: int, fs: seq<Vuln>, f: Vuln, g: Vuln)
    requires f in fs && g in fs && f.relevant && g.relevant && f.key == g.key && f.severity != g.severity
    requires forall e :: e in es && e.key == f.key ==> e.severity != ""
    ensures !PassesStrictly(es, today, fs)
  {
    if PassesStrictly(es, today, fs) {
      assert Excused(es, today, f) && Excused(es, today, g);
      var d :| d in es && d.key == f.key && SeverityFits(d, f);
      var e :| e in es && e.key == g.key && SeverityFits(e, g);
      OneExceptionPerKey(es, d, e);
    }
  }

  /** Which findings deduplication is harmless for: looking only at the first finding of each key means the same as
      looking at all of them, whatever the exceptions and the day, if and only if relevant findings of one key agree
      on their severity, or some finding cannot be excused at all. Relevant findings have a severity. */
  lemma DedupHarmlessIff(fs: seq<Vuln>)
    requires forall f :: f in fs && f.relevant ==> f.severity != ""
    ensures (forall es: seq<Exc>, today: int :: Passes(es, today, fs) ==> PassesStrictly(es, today, fs)) <==>
            SeveritiesAgree(fs) || Unlistable(fs)
  {
    if SeveritiesAgree(fs) || Unlistable(fs) {
      forall es: seq<Exc>, today: int | Passes(es, today, fs)
        ensures PassesStrictly(es, today, fs)
      {
        if Unlistable(fs) {
          UnlistableFails(es, today, fs);
        } else {
          AgreeingPassStrictly(es, today, fs);
        }
      }
    } else {
      var f, g :| f in fs && g in fs && f.relevant && g.relevant && f.key == g.key && f.severity != g.severity;
      ListingPasses(fs, 0);
      ListingMeaning(fs, 0);
      DisagreeingFail(Listing(fs, 0), 0, fs, f, g);
    }
  }

  lemma AgreeingPassStrictly(es: seq<Exc>, today: int, fs: seq<Vuln>)
    requires SeveritiesAgree(fs) && Passes(es, today, fs)
    ensures PassesStrictly(es, today, fs)
  {
    forall f | f in fs && f.relevant
      ensures f.key.1 != "" && Excused(es, today, f)
    {
      var i :| 0 <= i < |fs| && fs[i] == f;
      var j := FirstExists(fs, i);
      assert fs[j] in fs && fs[j].severity == f.severity;
      assert Excused(es, today, fs[j]);
    }
  }

  // ---------- the passing days ----------

  /** The finding is excused if expiry is ignored. */
  ghost predicate ExcusedEver(es: seq<Exc>, f: Vuln) {
    exists e :: e in es && e.key == f.key && SeverityFits(e, f) && e.expires.Some?
  }

  ghost predicate PassesIgnoringExpiry(es: seq<Exc>, fs: seq<Vuln>) {
    && ExceptionsOK(es)
    && forall i :: 0 <= i < |fs| && fs[i].relevant ==>
         fs[i].key.1 != "" && (First(fs, i) ==> ExcusedEver(es, fs[i]))
  }

  /** An exception that some relevant finding relies on. */
  ghost predicate Used(e: Exc, fs: seq<Vuln>) {
    exists i :: 0 <= i < |fs| && fs[i].relevant && fs[i].key == e.key
  }

  lemma OneExceptionPerKey(es: seq<Exc>, d: Exc, e: Exc)
    requires DistinctKeys(es) && d in es && e in es && d.key == e.key
    ensures d == e
  {
    var i :| 0 <= i < |es| && es[i] == d;
    var j :| 0 <= j < |es| && es[j] == e;
    assert i == j || i < j || j < i;
  }

  /** The gate passes on a day exactly if it passes with expiry ignored and no used exception expires before it. */
  lemma PassingDays(es: seq<Exc>, today: int, fs: seq<Vuln>)
    ensures Passes(es, today, fs) <==>
              && PassesIgnoringExpiry(es, fs)
              && forall e :: e in es && Used(e, fs) ==> e.expires.Some? && today <= e.expires.value
  {
    if Passes(es, today, fs) {
      forall i | 0 <= i < |fs| && fs[i].relevant && First(fs, i)
        ensures ExcusedEver(es, fs[i])
      {
        assert Excused(es, today, fs[i]);
      }
      forall e | e in es && Used(e, fs)
        ensures e.expires.Some? && today <= e.expires.value
      {
        var i :| 0 <= i < |fs| && fs[i].relevant && fs[i].key == e.key;
        DedupKeepsExpiry(es, today, fs, i);
        var d :| d in es && d.key == fs[i].key && d.expires.Some? && today <= d.expires.value;
        OneExceptionPerKey(es, d, e);
      }
    }
    if PassesIgnoringExpiry(es, fs) && forall e :: e in es && Used(e, fs) ==>
      e.expires.Some? && today <= e.expires.value {
      forall i | 0 <= i < |fs| && fs[i].relevant && First(fs, i)
        ensures Excused(es, today, fs[i])
      {
        var e :| e in es && e.key == fs[i].key && SeverityFits(e, fs[i]) && e.expires.Some?;
        assert Used(e, fs);
      }
    }
  }

  /** The last day on which no used exception has expired; None if no exception is used. */
  ghost function LastDay(es: seq<Exc>, fs: seq<Vuln>): Option<int> {
    if es == [] then None
    else
      var e := es[|es| - 1];
      var rest := LastDay(es[..|es| - 1], fs);
      if !Used(e, fs) || e.expires.None? then rest
      else if rest.None? || e.expires.value < rest.value then e.expires
      else rest
  }

  lemma {:induction false} LastDayMeaning(es: seq<Exc>, fs: seq<Vuln>, today: int)
    requires forall e :: e in es ==> e.expires.Some?
    ensures (LastDay(es, fs).None? || today <= LastDay(es, fs).value) <==>
            forall e :: e in es && Used(e, fs) ==> today <= e.expires.value
  {
    if es != [] {
      var n := |es| - 1;
      LastDayMeaning(es[..n], fs, today);
      assert es == es[..n] + [es[n]];
      assert es[n] in es;
    }
  }

  /** The passing days are exactly those up to the minimum expiry over the used exceptions: a gate that passes on
      some day passes on every earlier one, and there is a last such day unless no exception is used. */
  lemma PassingDaysAreDownwardClosed(es: seq<Exc>, fs: seq<Vuln>, today: int)
    ensures Passes(es, today, fs) <==>
            PassesIgnoringExpiry(es, fs) && (LastDay(es, fs).None? || today <= LastDay(es, fs).value)
  {
    PassingDays(es, today, fs);
    if PassesIgnoringExpiry(es, fs) {
      assert forall e :: e in es ==> Valid(e);
      LastDayMeaning(es, fs, today);
    }
  }
}
