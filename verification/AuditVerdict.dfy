// The verdict as a formula, and verdicts of runs on related inputs.

module AuditVerdict {
  import opened Wrappers
  import opened AuditText
  import opened AuditParser
  import opened AuditFindings
  import opened AuditGate
  import opened AuditTheorems

  // Some exception lists the key, with no severity or this one, and has not expired.
  ghost predicate Covers(lib: Lib, today: int, r: Record, key: Key, severity: string) {
    && Lists(lib, r, key)
    && (ListingOf(lib, r).entry.severity == "" || ListingOf(lib, r).entry.severity == severity)
    && today <= ListingOf(lib, r).entry.expires
  }

  ghost predicate Covered(lib: Lib, today: int, rs: seq<Record>, key: Key, severity: string) {
    exists i :: 0 <= i < |rs| && Covers(lib, today, rs[i], key, severity)
  }

  // A finding that passes on its own.
  ghost predicate FindingOk(lib: Lib, today: int, rs: seq<Record>, f: Finding) {
    match Classify(lib, f)
    case Raises => false
    case Ignored => true
    case Unidentified => false
    case Keyed(key, severity) => Covered(lib, today, rs, key, severity)
  }

  ghost predicate FirstOrOk(lib: Lib, today: int, rs: seq<Record>, fs: seq<Finding>, k: nat)
    requires k < |fs|
  {
    (Classify(lib, fs[k]).Keyed? && Seen(lib, fs[..k], Classify(lib, fs[k]).key)) || FindingOk(lib, today, rs, fs[k])
  }

  ghost predicate PassFormula(lib: Lib, today: int, rs: seq<Record>, fs: seq<Finding>) {
    RecordsOk(lib, rs) && forall k | 0 <= k < |fs| :: FirstOrOk(lib, today, rs, fs, k)
  }

  lemma AcceptsIsCovered(lib: Lib, today: int, rs: seq<Record>, key: Key, severity: string)
    requires RecordsOk(lib, rs)
    ensures Accepts(BuildIndex(lib, rs).entries, today, key, severity) <==> Covered(lib, today, rs, key, severity)
  {
    hide ListingOf; hide BuildIndex; hide RecordsOk;
    IndexIsFirstWins(lib, rs, key);
    if Listed(lib, rs, key) {
      var i :| 0 <= i < |rs| && Lists(lib, rs[i], key);
      OnlyOneLists(lib, rs, i, key);
      assert FirstListing(lib, rs, i, key);
    }
  }

  lemma OnlyOneLists(lib: Lib, rs: seq<Record>, i: nat, key: Key)
    requires RecordsOk(lib, rs) && i < |rs| && Lists(lib, rs[i], key)
    ensures forall j | 0 <= j < |rs| && Lists(lib, rs[j], key) :: j == i
    ensures !Listed(lib, rs[..i], key)
  {
    hide ListingOf;
  }

  // The gate passes exactly when every exception is well formed, no two have the same
  // package and advisory, and every finding is either not severe, or a repetition of an
  // earlier one, or named, identified and covered by an unexpired exception.
  lemma PassesExactlyWhen(lib: Lib, today: int, rs: seq<Record>, fs: seq<Finding>)
    ensures Judge(lib, today, rs, fs) == Passed <==> PassFormula(lib, today, rs, fs)
  {
    hide ListingOf; hide Classify; hide RecordsOk; hide ScanAll; hide BuildIndex; hide Accepts; hide Covered; hide Seen;
    var entries := BuildIndex(lib, rs).entries;
    NoErrorsExactlyWhen(lib, rs);
    ScanMeans(lib, entries, today, fs);
    if RecordsOk(lib, rs) {
      forall k | 0 <= k < |fs|
        ensures Quiet(lib, entries, today, fs[..k], fs[k]) <==> FirstOrOk(lib, today, rs, fs, k)
      {
        var c := Classify(lib, fs[k]);
        if c.Keyed? { AcceptsIsCovered(lib, today, rs, c.key, c.severity); }
      }
    }
  }

  // The whole run, from the file of the exceptions and the audit document.
  lemma GatePassesExactlyWhen(lib: Lib, today: int, audit: Json, text: string)
    ensures Gate(lib, today, audit, text) == Passed
       <==> && !SomeBare(Lines(text)) && Readable(audit)
            && Parse(Lines(text)).Some? && Findings(lib.show, audit).Some?
            && PassFormula(lib, today, Parse(Lines(text)).value, Findings(lib.show, audit).value)
  {
    hide Parse; hide Lines; hide Findings; hide Judge; hide PassFormula; hide SomeBare; hide Readable;
    ParseRaisesExactlyWhen(Lines(text));
    ReadableExactlyWhen(lib.show, audit);
    if Parse(Lines(text)).Some? && Findings(lib.show, audit).Some? {
      PassesExactlyWhen(lib, today, Parse(Lines(text)).value, Findings(lib.show, audit).value);
    }
  }

  // A severity that has a value but is not text.
  predicate BadSeverity(f: Finding) {
    Truthy(f.severity) && !f.severity.Str?
  }

  ghost predicate SomeBadSeverity(fs: seq<Finding>) {
    exists f :: f in fs && BadSeverity(f)
  }

  ghost predicate SomeBare(lines: seq<string>) {
    exists i :: 0 <= i < |lines| && Bare(lines[i])
  }

  lemma ParseRaisesExactlyWhen(lines: seq<string>)
    ensures Parse(lines).None? <==> SomeBare(lines)
  {
    hide Parse; hide Bare;
    OneRecordPerItem(lines);
  }

  lemma JudgeRaisesExactlyWhen(lib: Lib, today: int, rs: seq<Record>, fs: seq<Finding>)
    ensures Judge(lib, today, rs, fs) == Raised <==> SomeBadSeverity(fs)
  {
    hide ScanAll; hide BuildIndex; hide Classify; hide BadSeverity; hide SeenIs; hide AllQuiet; hide NoProblems;
    forall f ensures Classify(lib, f) == Raises <==> BadSeverity(f) { ClassifyRaises(lib, f); }
    ScanMeans(lib, BuildIndex(lib, rs).entries, today, fs);
    if k :| 0 <= k < |fs| && Classify(lib, fs[k]) == Raises { assert fs[k] in fs; }
    if f :| f in fs && BadSeverity(f) {
      var k :| 0 <= k < |fs| && fs[k] == f;
      assert Classify(lib, fs[k]) == Raises;
    }
  }

  // The run ends in an exception exactly when some item line has no colon, the document cannot
  // be read, or some finding's severity is not text.
  lemma GateRaisesExactlyWhen(lib: Lib, today: int, audit: Json, text: string)
    ensures Gate(lib, today, audit, text) == Raised
       <==> || SomeBare(Lines(text)) || !Readable(audit)
            || (Findings(lib.show, audit).Some? && SomeBadSeverity(Findings(lib.show, audit).value))
  {
    hide Parse; hide Lines; hide Findings; hide Judge; hide SomeBare; hide Readable; hide SomeBadSeverity;
    ParseRaisesExactlyWhen(Lines(text));
    ReadableExactlyWhen(lib.show, audit);
    if Parse(Lines(text)).Some? && Findings(lib.show, audit).Some? {
      JudgeRaisesExactlyWhen(lib, today, Parse(Lines(text)).value, Findings(lib.show, audit).value);
    }
  }

  lemma ClassifyRaises(lib: Lib, f: Finding)
    ensures Classify(lib, f) == Raises <==> BadSeverity(f)
  {
    hide Strip;
  }

  // ----- White space and case -----

  // Exceptions and findings that are alike up to white space and lower-casing get the same
  // verdict.
  lemma AlikeGetTheSameVerdict(lib: Lib, today: int, rs: seq<Record>, qs: seq<Record>, fs: seq<Finding>, gs: seq<Finding>)
    requires |rs| == |qs| && forall i | 0 <= i < |rs| :: AlikeRecords(lib, rs[i], qs[i])
    requires |fs| == |gs| && forall k | 0 <= k < |fs| :: AlikeFindings(lib, fs[k], gs[k])
    ensures Judge(lib, today, rs, fs) == Passed <==> Judge(lib, today, qs, gs) == Passed
  {
    hide Judge; hide PassFormula; hide AlikeRecords; hide AlikeFindings; hide Classify; hide ListingOf;
    forall i | 0 <= i < |rs|
      ensures ListingOf(lib, rs[i]).Indexed? <==> ListingOf(lib, qs[i]).Indexed?
      ensures ListingOf(lib, rs[i]).Indexed? ==> ListingOf(lib, rs[i]) == ListingOf(lib, qs[i])
    {
      AlikeAreListedAlike(lib, rs[i], qs[i]);
    }
    forall k | 0 <= k < |fs| ensures Classify(lib, fs[k]) == Classify(lib, gs[k]) { AlikeAreClassedAlike(lib, fs[k], gs[k]); }
    PassesExactlyWhen(lib, today, rs, fs);
    PassesExactlyWhen(lib, today, qs, gs);
    SameFormula(lib, today, rs, qs, fs, gs);
    SameFormula(lib, today, qs, rs, gs, fs);
  }

  lemma SameFormula(lib: Lib, today: int, rs: seq<Record>, qs: seq<Record>, fs: seq<Finding>, gs: seq<Finding>)
    requires |rs| == |qs|
    requires forall i | 0 <= i < |rs| ::
               && (ListingOf(lib, rs[i]).Indexed? <==> ListingOf(lib, qs[i]).Indexed?)
               && (ListingOf(lib, rs[i]).Indexed? ==> ListingOf(lib, rs[i]) == ListingOf(lib, qs[i]))
    requires |fs| == |gs| && forall k | 0 <= k < |fs| :: Classify(lib, fs[k]) == Classify(lib, gs[k])
    ensures PassFormula(lib, today, rs, fs) ==> PassFormula(lib, today, qs, gs)
  {
    hide Classify; hide ListingOf;
    if PassFormula(lib, today, rs, fs) {
      assert forall i | 0 <= i < |qs| :: ListingOf(lib, rs[i]).Indexed?;
      forall k | 0 <= k < |gs| ensures FirstOrOk(lib, today, qs, gs, k) {
        assert FirstOrOk(lib, today, rs, fs, k);
        var c := Classify(lib, gs[k]);
        if c.Keyed? {
          if i :| 0 <= i < k && HasKey(lib, fs[..k][i], c.key) { assert HasKey(lib, gs[..k][i], c.key); }
          if i :| 0 <= i < |rs| && Covers(lib, today, rs[i], c.key, c.severity) {
            assert Covers(lib, today, qs[i], c.key, c.severity);
          }
        }
      }
    }
  }

  // ----- The scan without `seen` -----

  // Every finding passes on its own.
  ghost predicate NaivePass(lib: Lib, today: int, rs: seq<Record>, fs: seq<Finding>) {
    RecordsOk(lib, rs) && forall k | 0 <= k < |fs| :: FindingOk(lib, today, rs, fs[k])
  }

  // Findings with equal keys have equal severities.
  ghost predicate Consistent(lib: Lib, fs: seq<Finding>) {
    forall j, k | 0 <= j < |fs| && 0 <= k < |fs| ::
      Classify(lib, fs[j]).Keyed? && HasKey(lib, fs[k], Classify(lib, fs[j]).key)
      ==> Classify(lib, fs[k]).severity == Classify(lib, fs[j]).severity
  }

  lemma {:induction false} FirstSeen(lib: Lib, fs: seq<Finding>, k: nat, key: Key) returns (j: nat)
    requires k < |fs| && HasKey(lib, fs[k], key)
    ensures j <= k && HasKey(lib, fs[j], key) && !Seen(lib, fs[..j], key)
  {
    hide HasKey;
    if Seen(lib, fs[..k], key) {
      var i :| 0 <= i < k && HasKey(lib, fs[..k][i], key);
      j := FirstSeen(lib, fs, i, key);
    } else {
      j := k;
    }
  }

  // Skipping repetitions loses nothing when equal keys have equal severities.
  lemma SeenScanIsNaive(lib: Lib, today: int, rs: seq<Record>, fs: seq<Finding>)
    requires Consistent(lib, fs)
    ensures PassFormula(lib, today, rs, fs) <==> NaivePass(lib, today, rs, fs)
  {
    hide ListingOf; hide Classify; hide RecordsOk; hide Covered; hide Seen;
    if PassFormula(lib, today, rs, fs) {
      forall k | 0 <= k < |fs| ensures FindingOk(lib, today, rs, fs[k]) {
        assert FirstOrOk(lib, today, rs, fs, k);
        var c := Classify(lib, fs[k]);
        if c.Keyed? {
          var j := FirstSeen(lib, fs, k, c.key);
          assert FirstOrOk(lib, today, rs, fs, j);
        }
      }
    }
  }

  lemma NaivePassPermutes(lib: Lib, today: int, rs: seq<Record>, fs: seq<Finding>, gs: seq<Finding>)
    requires multiset(fs) == multiset(gs) && NaivePass(lib, today, rs, fs)
    ensures NaivePass(lib, today, rs, gs)
  {
    hide FindingOk; hide RecordsOk;
    forall k | 0 <= k < |gs| ensures FindingOk(lib, today, rs, gs[k]) {
      assert gs[k] in multiset(fs);
      var j :| 0 <= j < |fs| && fs[j] == gs[k];
    }
  }

  lemma ConsistentPermutes(lib: Lib, fs: seq<Finding>, gs: seq<Finding>)
    requires multiset(fs) == multiset(gs) && Consistent(lib, fs)
    ensures Consistent(lib, gs)
  {
    hide Classify;
    forall j, k | 0 <= j < |gs| && 0 <= k < |gs| && Classify(lib, gs[j]).Keyed? && HasKey(lib, gs[k], Classify(lib, gs[j]).key)
      ensures Classify(lib, gs[k]).severity == Classify(lib, gs[j]).severity
    {
      assert gs[j] in multiset(fs) && gs[k] in multiset(fs);
      var j' :| 0 <= j' < |fs| && fs[j'] == gs[j];
      var k' :| 0 <= k' < |fs| && fs[k'] == gs[k];
      assert HasKey(lib, fs[k'], Classify(lib, fs[j']).key);
    }
  }

  // So the order of the findings does not matter then.
  lemma OrderDoesNotMatter(lib: Lib, today: int, rs: seq<Record>, fs: seq<Finding>, gs: seq<Finding>)
    requires multiset(fs) == multiset(gs) && Consistent(lib, fs)
    ensures Judge(lib, today, rs, fs) == Passed <==> Judge(lib, today, rs, gs) == Passed
  {
    hide Judge; hide NaivePass; hide PassFormula; hide Consistent;
    ConsistentPermutes(lib, fs, gs);
    PassesExactlyWhen(lib, today, rs, fs);
    PassesExactlyWhen(lib, today, rs, gs);
    SeenScanIsNaive(lib, today, rs, fs);
    SeenScanIsNaive(lib, today, rs, gs);
    if NaivePass(lib, today, rs, fs) { NaivePassPermutes(lib, today, rs, fs, gs); }
    if NaivePass(lib, today, rs, gs) { NaivePassPermutes(lib, today, rs, gs, fs); }
  }

  // In general a set of findings passes in every order exactly when each passes on its own.
  lemma PassesInEveryOrder(lib: Lib, today: int, rs: seq<Record>, fs: seq<Finding>)
    ensures (forall gs | multiset(gs) == multiset(fs) :: Judge(lib, today, rs, gs) == Passed)
       <==> NaivePass(lib, today, rs, fs)
  {
    hide Judge; hide FindingOk; hide RecordsOk;
    if NaivePass(lib, today, rs, fs) {
      forall gs | multiset(gs) == multiset(fs) ensures Judge(lib, today, rs, gs) == Passed {
        NaivePassPermutes(lib, today, rs, fs, gs);
        PassesExactlyWhen(lib, today, rs, gs);
      }
    }
    if forall gs | multiset(gs) == multiset(fs) :: Judge(lib, today, rs, gs) == Passed {
      assert Judge(lib, today, rs, fs) == Passed;
      PassesExactlyWhen(lib, today, rs, fs);
      forall k | 0 <= k < |fs| ensures FindingOk(lib, today, rs, fs[k]) {
        var gs := [fs[k]] + (fs[..k] + fs[k + 1..]);
        assert fs == fs[..k] + ([fs[k]] + fs[k + 1..]);
        assert multiset(gs) == multiset(fs);
        assert Judge(lib, today, rs, gs) == Passed;
        PassesExactlyWhen(lib, today, rs, gs);
        assert FirstOrOk(lib, today, rs, gs, 0);
        assert gs[..0] == [];
      }
    }
  }

  // A finding that passes on its own, or whose key that of one that does.
  ghost predicate Supported(lib: Lib, today: int, rs: seq<Record>, fs: seq<Finding>, f: Finding) {
    FindingOk(lib, today, rs, f)
    || (Classify(lib, f).Keyed?
        && exists j :: 0 <= j < |fs| && FindingOk(lib, today, rs, fs[j]) && HasKey(lib, fs[j], Classify(lib, f).key))
  }

  ghost predicate SupportedPass(lib: Lib, today: int, rs: seq<Record>, fs: seq<Finding>) {
    RecordsOk(lib, rs) && forall k | 0 <= k < |fs| :: Supported(lib, today, rs, fs, fs[k])
  }

  // The findings that pass on their own, or those that do not, in their order.
  ghost function Those(lib: Lib, today: int, rs: seq<Record>, ok: bool, fs: seq<Finding>): (gs: seq<Finding>)
    ensures forall f :: f in gs <==> f in fs && FindingOk(lib, today, rs, f) == ok
  {
    if fs == [] then []
    else (if FindingOk(lib, today, rs, fs[0]) == ok then [fs[0]] else []) + Those(lib, today, rs, ok, fs[1..])
  }

  lemma {:induction false} ThoseAreAll(lib: Lib, today: int, rs: seq<Record>, fs: seq<Finding>)
    ensures multiset(Those(lib, today, rs, true, fs) + Those(lib, today, rs, false, fs)) == multiset(fs)
  {
    hide FindingOk;
    if fs != [] {
      ThoseAreAll(lib, today, rs, fs[1..]);
      assert fs == [fs[0]] + fs[1..];
    }
  }

  lemma SupportedFirst(lib: Lib, today: int, rs: seq<Record>, fs: seq<Finding>)
    requires SupportedPass(lib, today, rs, fs)
    ensures
      PassFormula(lib, today, rs, Those(lib, today, rs, true, fs) + Those(lib, today, rs, false, fs))
  {
    hide Classify; hide FindingOk; hide RecordsOk; hide Those;
    var a, b := Those(lib, today, rs, true, fs), Those(lib, today, rs, false, fs);
    var gs := a + b;
    forall k | 0 <= k < |gs| ensures FirstOrOk(lib, today, rs, gs, k) {
      if k < |a| {
        assert gs[k] in a;
      } else {
        assert gs[k] == b[k - |a|] && gs[k] in b;
        var i :| 0 <= i < |fs| && fs[i] == gs[k];
        assert Supported(lib, today, rs, fs, fs[i]);
        var key := Classify(lib, gs[k]).key;
        var j :| 0 <= j < |fs| && FindingOk(lib, today, rs, fs[j]) && HasKey(lib, fs[j], key);
        assert fs[j] in a;
        var n :| 0 <= n < |a| && a[n] == fs[j];
        assert HasKey(lib, gs[..k][n], key);
      }
    }
  }

  lemma PassIsSupported(lib: Lib, today: int, rs: seq<Record>, fs: seq<Finding>, gs: seq<Finding>)
    requires multiset(gs) == multiset(fs) && PassFormula(lib, today, rs, gs)
    ensures SupportedPass(lib, today, rs, fs)
  {
    hide Classify; hide FindingOk; hide RecordsOk;
    forall k | 0 <= k < |fs| ensures Supported(lib, today, rs, fs, fs[k]) {
      assert fs[k] in multiset(gs);
      var n :| 0 <= n < |gs| && gs[n] == fs[k];
      assert FirstOrOk(lib, today, rs, gs, n);
      if !FindingOk(lib, today, rs, fs[k]) {
        var key := Classify(lib, fs[k]).key;
        var i := FirstSeen(lib, gs, n, key);
        assert FirstOrOk(lib, today, rs, gs, i);
        assert gs[i] in multiset(fs);
        var j :| 0 <= j < |fs| && fs[j] == gs[i];
        assert FindingOk(lib, today, rs, fs[j]) && HasKey(lib, fs[j], key);
      }
    }
  }

  // They pass in some order exactly when each of them passes on its own or shares its key with
  // one that does.
  lemma PassesInSomeOrder(lib: Lib, today: int, rs: seq<Record>, fs: seq<Finding>)
    ensures (exists gs :: multiset(gs) == multiset(fs) && Judge(lib, today, rs, gs) == Passed)
       <==> SupportedPass(lib, today, rs, fs)
  {
    hide Judge; hide PassFormula; hide SupportedPass;
    if gs :| multiset(gs) == multiset(fs) && Judge(lib, today, rs, gs) == Passed {
      PassesExactlyWhen(lib, today, rs, gs);
      PassIsSupported(lib, today, rs, fs, gs);
    }
    if SupportedPass(lib, today, rs, fs) {
      var gs := Those(lib, today, rs, true, fs) + Those(lib, today, rs, false, fs);
      ThoseAreAll(lib, today, rs, fs);
      SupportedFirst(lib, today, rs, fs);
      PassesExactlyWhen(lib, today, rs, gs);
    }
  }

  // So the order decides exactly when every finding is supported but not every one passes on
  // its own.
  lemma OrderDecidesExactlyWhen(lib: Lib, today: int, rs: seq<Record>, fs: seq<Finding>)
    ensures (exists gs, hs :: multiset(gs) == multiset(fs) && multiset(hs) == multiset(fs)
                              && Judge(lib, today, rs, gs) == Passed && Judge(lib, today, rs, hs) != Passed)
       <==> SupportedPass(lib, today, rs, fs) && !NaivePass(lib, today, rs, fs)
  {
    hide Judge; hide SupportedPass; hide NaivePass;
    PassesInSomeOrder(lib, today, rs, fs);
    PassesInEveryOrder(lib, today, rs, fs);
  }

  // Deleting a repetition changes nothing, neither the problems nor their order.
  lemma RepetitionsAreInvisible(lib: Lib, today: int, rs: seq<Record>, before: seq<Finding>, f: Finding, after: seq<Finding>)
    requires Classify(lib, f).Keyed? && Seen(lib, before, Classify(lib, f).key)
    ensures Judge(lib, today, rs, before + [f] + after) == Judge(lib, today, rs, before + after)
  {
    hide Classify; hide Seen; hide BuildIndex;
    var entries := BuildIndex(lib, rs).entries;
    ScanMeans(lib, entries, today, before);
    assert (before + [f])[..|before|] == before;
    assert ScanAll(lib, entries, today, before + [f]) == ScanAll(lib, entries, today, before);
    SameFromHere(lib, entries, today, before + [f], before, after);
  }

  lemma {:induction false} SameFromHere(
    lib: Lib, entries: map<Key, Entry>, today: int, a: seq<Finding>, b: seq<Finding>, after: seq<Finding>)
    requires ScanAll(lib, entries, today, a) == ScanAll(lib, entries, today, b)
    ensures ScanAll(lib, entries, today, a + after) == ScanAll(lib, entries, today, b + after)
  {
    hide Classify; hide Look;
    if after == [] {
      assert a + after == a && b + after == b;
    } else {
      var n := |after| - 1;
      SameFromHere(lib, entries, today, a, b, after[..n]);
      assert (a + after)[..|a + after| - 1] == a + after[..n];
      assert (b + after)[..|b + after| - 1] == b + after[..n];
    }
  }

  // ----- Runs on related inputs -----

  // A pass holds on every earlier day.
  lemma EarlierDaysPass(lib: Lib, today: int, day: int, rs: seq<Record>, fs: seq<Finding>)
    requires day <= today && Judge(lib, today, rs, fs) == Passed
    ensures Judge(lib, day, rs, fs) == Passed
  {
    hide Judge; hide Classify; hide Seen; hide ListingOf; hide RecordsOk;
    PassesExactlyWhen(lib, today, rs, fs);
    PassesExactlyWhen(lib, day, rs, fs);
    forall k | 0 <= k < |fs| ensures FirstOrOk(lib, day, rs, fs, k) {
      assert FirstOrOk(lib, today, rs, fs, k);
      var c := Classify(lib, fs[k]);
      if c.Keyed? && Covered(lib, today, rs, c.key, c.severity) {
        var i :| 0 <= i < |rs| && Covers(lib, today, rs[i], c.key, c.severity);
        assert Covers(lib, day, rs[i], c.key, c.severity);
      }
    }
  }

  ghost predicate Fresh(lib: Lib, rs: seq<Record>, e: Record) {
    ListingOf(lib, e).Indexed? && !Listed(lib, rs, ListingOf(lib, e).key)
  }

  lemma InsertKeepsOk(lib: Lib, a: seq<Record>, b: seq<Record>, e: Record)
    requires Fresh(lib, a + b, e)
    ensures RecordsOk(lib, a + [e] + b) <==> RecordsOk(lib, a + b)
  {
    hide ListingOf;
    var x, y := a + b, a + [e] + b;
    assert y[|a|] == e;
    assert forall i | 0 <= i < |x| :: x[i] == y[if i < |a| then i else i + 1];
    assert forall i | 0 <= i < |y| && i != |a| :: y[i] == x[if i < |a| then i else i - 1];
    if RecordsOk(lib, x) {
      forall i | 0 <= i < |x| ensures ListingOf(lib, x[i]).key != ListingOf(lib, e).key {
        assert ListingOf(lib, x[i]).Indexed? && !Lists(lib, x[i], ListingOf(lib, e).key);
      }
    }
    if RecordsOk(lib, y) {
      forall i | 0 <= i < |x| ensures ListingOf(lib, x[i]).Indexed? {
        assert ListingOf(lib, y[if i < |a| then i else i + 1]).Indexed?;
      }
      forall i, j | 0 <= i < j < |x| ensures ListingOf(lib, x[i]).key != ListingOf(lib, x[j]).key {
        var i', j' := if i < |a| then i else i + 1, if j < |a| then j else j + 1;
        assert ListingOf(lib, y[i']).key != ListingOf(lib, y[j']).key;
      }
    }
  }

  lemma InsertCovers(lib: Lib, today: int, a: seq<Record>, b: seq<Record>, e: Record, key: Key, severity: string)
    ensures Covered(lib, today, a + [e] + b, key, severity)
       <==> Covered(lib, today, a + b, key, severity) || Covers(lib, today, e, key, severity)
  {
    hide Covers;
    var x, y := a + b, a + [e] + b;
    if Covered(lib, today, x, key, severity) {
      var i :| 0 <= i < |x| && Covers(lib, today, x[i], key, severity);
      assert x[i] == y[if i < |a| then i else i + 1];
    }
    assert y[|a|] == e;
    if Covered(lib, today, y, key, severity) {
      var i :| 0 <= i < |y| && Covers(lib, today, y[i], key, severity);
      if i != |a| { assert y[i] == x[if i < |a| then i else i - 1]; }
    }
  }

  // Adding a well-formed exception with a fresh key, anywhere in the list, keeps a pass. The
  // other way round, taking it out keeps a pass exactly when no finding has its key.
  lemma FreshExceptionKeepsPass(lib: Lib, today: int, a: seq<Record>, b: seq<Record>, e: Record, fs: seq<Finding>)
    requires Fresh(lib, a + b, e)
    ensures Judge(lib, today, a + b, fs) == Passed
       <==> Judge(lib, today, a + [e] + b, fs) == Passed && !Seen(lib, fs, ListingOf(lib, e).key)
  {
    hide Judge; hide Classify; hide ListingOf; hide RecordsOk; hide Covered; hide Listed;
    var x, y, key := a + b, a + [e] + b, ListingOf(lib, e).key;
    PassesExactlyWhen(lib, today, x, fs);
    PassesExactlyWhen(lib, today, y, fs);
    InsertKeepsOk(lib, a, b, e);
    forall k | 0 <= k < |fs| && Classify(lib, fs[k]).Keyed?
      ensures
        var c := Classify(lib, fs[k]);
        Covered(lib, today, y, c.key, c.severity) <==> Covered(lib, today, x, c.key, c.severity) || Covers(lib, today, e, c.key, c.severity)
    {
      InsertCovers(lib, today, a, b, e, Classify(lib, fs[k]).key, Classify(lib, fs[k]).severity);
    }
    if PassFormula(lib, today, x, fs) {
      if k :| 0 <= k < |fs| && HasKey(lib, fs[k], key) {
        var j := FirstSeen(lib, fs, k, key);
        assert FirstOrOk(lib, today, x, fs, j);
        NotCovered(lib, today, x, key, Classify(lib, fs[j]).severity);
      }
      forall k | 0 <= k < |fs| ensures FirstOrOk(lib, today, y, fs, k) { assert FirstOrOk(lib, today, x, fs, k); }
    }
    if PassFormula(lib, today, y, fs) && !Seen(lib, fs, key) {
      forall k | 0 <= k < |fs| ensures FirstOrOk(lib, today, x, fs, k) {
        assert FirstOrOk(lib, today, y, fs, k);
        assert !HasKey(lib, fs[k], key);
      }
    }
  }

  lemma NotCovered(lib: Lib, today: int, rs: seq<Record>, key: Key, severity: string)
    requires !Listed(lib, rs, key)
    ensures !Covered(lib, today, rs, key, severity)
  {
  }

  // ----- The file -----

  // Records rendered at the end of a list that parses are read after the others.
  lemma {:induction false} AppendedRecords(p: Parser, lines: seq<string>, records: seq<seq<Field>>, y: Style)
    requires StyleOk(y) && forall j | 0 <= j < |records| :: records[j] != [] && Clean(records[j])
    requires ParseFrom(p, lines).Some?
    ensures ParseFrom(p, lines + Render(records, y)) == Some(ParseFrom(p, lines).value + Dicts(records))
    decreases |lines|
  {
    hide Step; hide Render; hide StyleOk; hide Clean; hide Dicts; hide Flush;
    if lines == [] {
      ReadRecords(p, records, y);
      assert lines + Render(records, y) == Render(records, y);
    } else {
      AppendedRecords(Step(p, lines[0]).value, lines[1..], records, y);
      assert (lines + Render(records, y))[1..] == lines[1..] + Render(records, y);
    }
  }

  // Appending an exception to the file, well formed and for a new key, keeps a pass.
  lemma AppendingAnExceptionKeepsPass(lib: Lib, today: int, audit: Json, text: string, e: seq<Field>, y: Style)
    requires StyleOk(y) && e != [] && Clean(e) && Unbroken([e], y) && Ended(text)
    requires Gate(lib, today, audit, text) == Passed
    requires Fresh(lib, Parse(Lines(text)).value, Dict(map[], e))
    ensures Gate(lib, today, audit, text + Written([e], y)) == Passed
  {
    hide Judge; hide ParseFrom; hide Findings; hide Dict; hide Render; hide Fresh; hide StyleOk; hide Clean; hide Lines;
    hide Unbroken; hide Written; hide Ended;
    var rs, r := Parse(Lines(text)).value, Dict(map[], e);
    StyleQuotes(y);
    WrittenLines([e], y);
    LinesConcat(text, Written([e], y));
    TerminatedOk(y);
    AppendedRecords(Parser([], None), Lines(text), [e], Terminated(y));
    assert Dicts([e]) == [r];
    assert rs + [] == rs && rs + [r] + [] == rs + [r];
    FreshExceptionKeepsPass(lib, today, rs, [], r, Findings(lib.show, audit).value);
  }

  // ----- What passes without any exception -----

  // A severity and a package name that the gate passes over.
  predicate Overlooked(lib: Lib, name: Json, severity: Json) {
    && (Truthy(severity) ==> severity.Str?)
    && (!Truthy(name) || Normalize(lib, if Truthy(severity) then severity.s else "") !in HIGH)
  }

  lemma OverlookedIsIgnored(lib: Lib, f: Finding)
    ensures Classify(lib, f) == Ignored <==> Overlooked(lib, f.name, f.severity)
  {
    hide Strip;
  }

  lemma NotFirst(lib: Lib, today: int, fs: seq<Finding>, j: nat)
    requires j < |fs| && Classify(lib, fs[j]).Keyed? && !Seen(lib, fs[..j], Classify(lib, fs[j]).key)
    ensures !FirstOrOk(lib, today, [], fs, j)
  {
  }

  lemma NoExceptions(lib: Lib, today: int, fs: seq<Finding>)
    ensures PassFormula(lib, today, [], fs) <==> forall f | f in fs :: Overlooked(lib, f.name, f.severity)
  {
    hide Classify; hide Overlooked;
    forall f ensures Classify(lib, f) == Ignored <==> Overlooked(lib, f.name, f.severity) { OverlookedIsIgnored(lib, f); }
    if PassFormula(lib, today, [], fs) {
      forall k | 0 <= k < |fs| ensures Classify(lib, fs[k]) == Ignored {
        assert FirstOrOk(lib, today, [], fs, k);
        var c := Classify(lib, fs[k]);
        if c.Keyed? {
          var j := FirstSeen(lib, fs, k, c.key);
          NotFirst(lib, today, fs, j);
        }
      }
    } else {
      var k :| 0 <= k < |fs| && !FirstOrOk(lib, today, [], fs, k);
      assert fs[k] in fs;
    }
  }

  // The name and the severity of an advisory are passed over.
  predicate OverlookedAdvisory(lib: Lib, advisory: Json) {
    advisory.Object? &&
    var a := advisory.members;
    Overlooked(lib, Or(Get(a, "module_name"), Get(a, "name")), Get(a, "severity"))
  }

  // A vulnerability yields no finding, or its name and severity are passed over.
  predicate OverlookedVulnerability(lib: Lib, name: string, vuln: Json) {
    vuln.Object? &&
    (ViaIds(ViaList(vuln.members)) == [] || Overlooked(lib, Str(name), Get(vuln.members, "severity")))
  }

  ghost predicate AllOverlooked(lib: Lib, data: Json)
    requires Readable(data)
  {
    var a, v := Get(data.members, "advisories"), Get(data.members, "vulnerabilities");
    && (a.Object? ==> forall i | 0 <= i < |a.members| :: OverlookedAdvisory(lib, a.members[i].1))
    && (v.Object? ==> forall i | 0 <= i < |v.members| :: OverlookedVulnerability(lib, v.members[i].0, v.members[i].1))
  }

  ghost predicate AllIgnored(lib: Lib, fs: seq<Finding>) {
    forall f | f in fs :: Overlooked(lib, f.name, f.severity)
  }

  lemma AdvisoryOverlooked(lib: Lib, advisory: Json)
    requires AdvisoryFinding(lib.show, advisory).Some?
    ensures
      var f := AdvisoryFinding(lib.show, advisory).value;
      Overlooked(lib, f.name, f.severity) <==> OverlookedAdvisory(lib, advisory)
  {
    hide Overlooked; hide PickAdvisoryId;
  }

  lemma AdvisoriesOverlooked(lib: Lib, m: seq<(string, Json)>)
    requires AdvisoryFindings(lib.show, m).Some?
    ensures AllIgnored(lib, AdvisoryFindings(lib.show, m).value)
       <==> forall i | 0 <= i < |m| :: OverlookedAdvisory(lib, m[i].1)
  {
    hide Overlooked; hide AdvisoryFindings; hide AdvisoryFinding; hide OverlookedAdvisory;
    AdvisoriesReadable(lib.show, m);
    var fs := AdvisoryFindings(lib.show, m).value;
    forall i | 0 <= i < |m|
      ensures fs[i] in fs && (Overlooked(lib, fs[i].name, fs[i].severity) <==> OverlookedAdvisory(lib, m[i].1))
    {
      AdvisoryOverlooked(lib, m[i].1);
    }
    forall f | f in fs ensures exists i :: 0 <= i < |m| && f == fs[i] {
      var i :| 0 <= i < |fs| && fs[i] == f;
      assert 0 <= i < |m|;
    }
  }

  lemma VulnerabilityOverlooked(lib: Lib, name: string, vuln: Json)
    requires VulnFindings(name, vuln).Some?
    ensures AllIgnored(lib, VulnFindings(name, vuln).value) <==> OverlookedVulnerability(lib, name, vuln)
  {
    hide Overlooked; hide ViaList; hide TitlesJoin; hide ViaIds; hide Get;
    var fs, ids := VulnFindings(name, vuln).value, ViaIds(ViaList(vuln.members));
    assert fs == Named(name, Get(vuln.members, "severity"), ids);
    if ids != [] { assert fs[0] in fs; }
  }

  lemma VulnsOverlooked(lib: Lib, m: seq<(string, Json)>)
    requires VulnsFindings(m).Some?
    ensures AllIgnored(lib, VulnsFindings(m).value)
       <==> forall i | 0 <= i < |m| :: OverlookedVulnerability(lib, m[i].0, m[i].1)
  {
    hide Overlooked; hide VulnsFindings; hide VulnFindings; hide OverlookedVulnerability;
    VulnsReadable(m);
    forall i | 0 <= i < |m|
      ensures AllIgnored(lib, VulnFindings(m[i].0, m[i].1).value) <==> OverlookedVulnerability(lib, m[i].0, m[i].1)
    {
      VulnerabilityOverlooked(lib, m[i].0, m[i].1);
    }
    var fs := VulnsFindings(m).value;
    if AllIgnored(lib, fs) {
      forall i | 0 <= i < |m| ensures AllIgnored(lib, VulnFindings(m[i].0, m[i].1).value) {
        forall f | f in VulnFindings(m[i].0, m[i].1).value ensures f in fs {}
      }
    }
  }

  // With no exceptions a document passes exactly when it can be read, and every advisory has a
  // severity that does not count or no name, and every vulnerability has no id, a severity
  // that does not count, or no name.
  lemma PassesWithoutExceptionsExactlyWhen(lib: Lib, today: int, audit: Json, text: string)
    requires Parse(Lines(text)) == Some([])
    ensures Gate(lib, today, audit, text) == Passed <==> Readable(audit) && AllOverlooked(lib, audit)
  {
    hide Parse; hide Lines; hide PassFormula; hide Judge; hide Readable; hide AllOverlooked; hide Findings; hide SomeBare;
    GatePassesExactlyWhen(lib, today, audit, text);
    ReadableExactlyWhen(lib.show, audit);
    ParseRaisesExactlyWhen(Lines(text));
    if Readable(audit) {
      NoExceptions(lib, today, Findings(lib.show, audit).value);
      FindingsOverlooked(lib, audit);
    }
  }

  lemma FindingsOverlooked(lib: Lib, data: Json)
    requires Readable(data) && Findings(lib.show, data).Some?
    ensures AllIgnored(lib, Findings(lib.show, data).value) <==> AllOverlooked(lib, data)
  {
    hide AdvisoryFindings; hide VulnsFindings; hide Get; hide ReadableAdvisory; hide ReadableVulnerability;
    hide OverlookedAdvisory; hide OverlookedVulnerability; hide AllIgnored;
    var a, v := Get(data.members, "advisories"), Get(data.members, "vulnerabilities");
    var fa := if a.Object? then AdvisoryFindings(lib.show, a.members) else Some([]);
    var fv := if v.Object? then VulnsFindings(v.members) else Some([]);
    assert Findings(lib.show, data) == Some(fa.value + fv.value);
    if a.Object? { AdvisoriesOverlooked(lib, a.members); } else { NoneIgnored(lib); }
    if v.Object? { VulnsOverlooked(lib, v.members); } else { NoneIgnored(lib); }
    BothIgnored(lib, fa.value, fv.value);
  }

  lemma NoneIgnored(lib: Lib)
    ensures AllIgnored(lib, [])
  {
  }

  lemma BothIgnored(lib: Lib, a: seq<Finding>, b: seq<Finding>)
    ensures AllIgnored(lib, a + b) <==> AllIgnored(lib, a) && AllIgnored(lib, b)
  {
    hide Overlooked;
    assert forall f | f in a :: f in a + b;
    assert forall f | f in b :: f in a + b;
  }

  lemma NoItems()
    ensures Parse(Lines("")) == Some([])
  {
  }

  lemma OnlyMember(name: string, other: string, v: Json)
    requires name != other
    ensures Get([(name, v)], name) == v && Get([(name, v)], other) == Null
  {
    assert [(name, v)][1..] == [];
  }

  // A document with one vulnerability: it passes with no exceptions exactly when it can be
  // read and no item of `via` has an id, or its severity does not count, or its name is empty.
  lemma OneVulnerabilityPassesExactlyWhen(lib: Lib, today: int, name: string, v: seq<(string, Json)>)
    ensures Gate(lib, today, Object([("vulnerabilities", Object([(name, Object(v))]))]), "") == Passed
       <==> TitlesJoin(ViaList(v)) && (ViaIds(ViaList(v)) == [] || Overlooked(lib, Str(name), Get(v, "severity")))
  {
    hide Gate; hide ViaList; hide Overlooked; hide ViaIds; hide TitleJoins; hide TextTitle;
    var m := [(name, Object(v))];
    OnlyMember("vulnerabilities", "advisories", Object(m));
    NoItems();
    PassesWithoutExceptionsExactlyWhen(lib, today, Object([("vulnerabilities", Object(m))]), "");
    forall item ensures TitleJoins(item) <==> TextTitle(item) { TitleIsText(item); }
    assert m[0] == (name, Object(v));
    assert ReadableVulnerability(Object(v)) <==> TitlesJoin(ViaList(v));
  }

  // So one none of whose `via` items has an id passes, however severe it is.
  lemma SilentVulnerabilityPasses(lib: Lib, today: int, name: string, v: seq<(string, Json)>)
    requires TitlesJoin(ViaList(v))
    requires forall i | 0 <= i < |ViaList(v)| :: ViaItem(ViaList(v)[i]).Some? ==> !Truthy(ViaItem(ViaList(v)[i]).value.0)
    ensures Gate(lib, today, Object([("vulnerabilities", Object([(name, Object(v))]))]), "") == Passed
  {
    hide ViaItem; hide ViaList; hide TitlesJoin; hide Gate; hide ViaIds;
    ViaIdsEmpty(ViaList(v));
    OneVulnerabilityPassesExactlyWhen(lib, today, name, v);
  }

  // For instance a critical vulnerability without `via`: it has no id.
  lemma CriticalVulnerabilityMayPass(lib: Lib, today: int, name: string)
    ensures
      var v := Object([("severity", Str("critical"))]);
      Gate(lib, today, Object([("vulnerabilities", Object([(name, v)]))]), "") == Passed
  {
    hide Gate;
    var v := Object([("severity", Str("critical"))]);
    var m := [(name, v)];
    OnlyMember("vulnerabilities", "advisories", Object(m));
    OnlyMember("severity", "via", Str("critical"));
    assert ViaList(v.members) == [];
    NoItems();
    PassesWithoutExceptionsExactlyWhen(lib, today, Object([("vulnerabilities", Object(m))]), "");
  }

  // And a critical advisory that has an id but no name.
  lemma NamelessAdvisoryMayPass(lib: Lib, today: int, id: string)
    requires id != ""
    ensures
      var a := Object([("severity", Str("critical")), ("github_advisory_id", Str(id))]);
      Gate(lib, today, Object([("advisories", Object([("1", a)]))]), "") == Passed
  {
    hide Gate;
    var a := [("severity", Str("critical")), ("github_advisory_id", Str(id))];
    var m := [("1", Object(a))];
    OnlyMember("advisories", "vulnerabilities", Object(m));
    NamelessAdvisory(lib, a, id);
    NoItems();
    PassesWithoutExceptionsExactlyWhen(lib, today, Object([("advisories", Object(m))]), "");
  }

  lemma NamelessAdvisory(lib: Lib, a: seq<(string, Json)>, id: string)
    requires id != "" && a == [("severity", Str("critical")), ("github_advisory_id", Str(id))]
    ensures ReadableAdvisory(Object(a)) && OverlookedAdvisory(lib, Object(a))
  {
    assert a[1..] == [("github_advisory_id", Str(id))] && a[1..][1..] == [];
    assert Get(a[1..], "github_advisory_id") == Str(id);
    assert Get(a, "github_advisory_id") == Str(id) && Get(a, "severity") == Str("critical");
    assert Get(a[1..][1..], "module_name") == Null && Get(a[1..][1..], "name") == Null;
    assert Get(a[1..], "module_name") == Null && Get(a[1..], "name") == Null;
    assert Get(a, "module_name") == Null && Get(a, "name") == Null;
  }

  // A vulnerability that does not count still makes the run raise when all it has for a title
  // is a source that is a number: titles are joined before severities are looked at.
  lemma NumericSourceRaises(lib: Lib, today: int, name: string, text: string)
    ensures
      var v := Object([("severity", Str("low")), ("via", AuditFindings.List([Object([("source", Number(7))])]))]);
      Gate(lib, today, Object([("vulnerabilities", Object([(name, v)]))]), text) == Raised
  {
    hide Gate; hide Parse; hide Lines;
    var item := [("source", Number(7))];
    var v := [("severity", Str("low")), ("via", AuditFindings.List([Object(item)]))];
    var m := [(name, Object(v))];
    OnlyMember("vulnerabilities", "advisories", Object(m));
    OnlyMember("source", "title", Number(7));
    OnlyMember("source", "url", Number(7));
    OnlyMember("source", "advisory", Number(7));
    assert FirstTruthy(TitleCandidates(item), 3);
    assert !TextTitle(Object(item));
    OnlyMember("via", "severity", AuditFindings.List([Object(item)]));
    assert v[1..] == [("via", AuditFindings.List([Object(item)]))];
    assert Get(v, "via") == AuditFindings.List([Object(item)]);
    assert ViaList(v) == [Object(item)];
    assert !TextTitle(ViaList(v)[0]);
    assert !ReadableVulnerability(m[0].1);
    assert !Readable(Object([("vulnerabilities", Object(m))])) by { hide ReadableVulnerability; hide ReadableAdvisory; }
    GateRaisesExactlyWhen(lib, today, Object([("vulnerabilities", Object(m))]), text);
  }

  // A lower-casing and a date parser that do what Python's do with the texts used here.
  predicate Sensible(lib: Lib, day: int) {
    && lib.lower("high") == "high" && lib.lower("critical") == "critical" && lib.lower("a") == "a"
    && lib.date("2030-01-01") == Some(day)
  }

  const HIGH_ONLY: seq<Field> :=
    [("package", "p"), ("advisory", "a"), ("severity", "high"), ("mitigation", "m"), ("expires_on", "2030-01-01")]

  function Advisory(severity: string): Json {
    Object([("module_name", Str("p")), ("severity", Str(severity)), ("github_advisory_id", Str("a"))])
  }

  function Advisories(first: string, second: string): Json {
    Object([("advisories", Object([("1", Advisory(first)), ("2", Advisory(second))]))])
  }

  // When one advisory of one package is listed with two severities, and the exception names
  // one of them, the order of the document decides the verdict.
  lemma OrderMayMatter(lib: Lib, day: int, today: int, y: Style)
    requires Sensible(lib, day) && today <= day && StyleOk(y) && NoBreak(y.before) && NoBreak(y.after)
    ensures
      var text := Written([HIGH_ONLY], y);
      && Gate(lib, today, Advisories("high", "critical"), text) == Passed
      && Gate(lib, today, Advisories("critical", "high"), text) != Passed
  {
    hide Judge; hide Parse; hide Findings; hide Written; hide Lines; hide NoBreak; hide Dict; hide ListingOf;
    HighOnlyParses(y);
    TwoFindings(lib.show, "high", "critical");
    TwoFindings(lib.show, "critical", "high");
    HighOnlyListed(lib, day);
    OrderJudged(lib, day, today, Dict(map[], HIGH_ONLY));
  }

  lemma OrderJudged(lib: Lib, day: int, today: int, r: Record)
    requires Sensible(lib, day) && today <= day
    requires ListingOf(lib, r) == Indexed(("p", "a"), Entry("high", day))
    ensures
      var f, g := Finding(Str("p"), Str("high"), Str("a")), Finding(Str("p"), Str("critical"), Str("a"));
      Judge(lib, today, [r], [f, g]) == Passed && Judge(lib, today, [r], [g, f]) != Passed
  {
    hide Judge; hide Classify; hide ListingOf; hide RecordsOk;
    var f, g := Finding(Str("p"), Str("high"), Str("a")), Finding(Str("p"), Str("critical"), Str("a"));
    var key := ("p", "a");
    FindingsClassified(lib, day);
    PassesExactlyWhen(lib, today, [r], [f, g]);
    PassesExactlyWhen(lib, today, [r], [g, f]);
    OneRecordOk(lib, r);
    assert Covers(lib, today, [r][0], key, "high");
    assert HasKey(lib, [f, g][..1][0], key);
    assert !Covered(lib, today, [r], key, "critical");
    assert !FirstOrOk(lib, today, [r], [g, f], 0);
  }

  lemma HighOnlyParses(y: Style)
    requires StyleOk(y) && NoBreak(y.before) && NoBreak(y.after)
    ensures Parse(Lines(Written([HIGH_ONLY], y))) == Some([Dict(map[], HIGH_ONLY)])
  {
    hide Parse; hide Written; hide Lines; hide Dict; hide StyleOk;
    HighOnlyIsClean();
    assert Unbroken([HIGH_ONLY], y);
    RenderThenParse([HIGH_ONLY], y);
    assert Dicts([HIGH_ONLY]) == [Dict(map[], HIGH_ONLY)];
  }

  lemma HighOnlyIsClean()
    ensures HIGH_ONLY != [] && Clean(HIGH_ONLY)
  {
    assert CleanKey("package") && CleanStart("advisory") && CleanStart("severity");
    assert CleanStart("mitigation") && CleanStart("expires_on");
    forall k | 0 <= k < |HIGH_ONLY| ensures if k == 0 then CleanKey(HIGH_ONLY[k].0) else CleanStart(HIGH_ONLY[k].0) {
      hide CleanKey; hide CleanStart;
    }
  }

  lemma AdvisoryIs(show: Json -> string, severity: string)
    ensures AdvisoryFinding(show, Advisory(severity)) == Some(Finding(Str("p"), Str(severity), Str("a")))
  {
    var a := [("module_name", Str("p")), ("severity", Str(severity)), ("github_advisory_id", Str("a"))];
    assert a[1..] == [("severity", Str(severity)), ("github_advisory_id", Str("a"))];
    assert a[1..][1..] == [("github_advisory_id", Str("a"))];
    assert Get(a[1..][1..], "github_advisory_id") == Str("a");
    assert Get(a[1..], "github_advisory_id") == Str("a");
    assert Get(a, "module_name") == Str("p") && Get(a, "severity") == Str(severity) && Get(a, "github_advisory_id") == Str("a");
  }

  lemma TwoFindings(show: Json -> string, first: string, second: string)
    ensures Findings(show, Advisories(first, second))
         == Some([Finding(Str("p"), Str(first), Str("a")), Finding(Str("p"), Str(second), Str("a"))])
  {
    hide AdvisoryFinding; hide Advisory;
    AdvisoryIs(show, first);
    AdvisoryIs(show, second);
    var m := [("1", Advisory(first)), ("2", Advisory(second))];
    assert m[1..] == [("2", Advisory(second))] && m[1..][1..] == [];
    var d := [("advisories", Object(m))];
    assert d[1..] == [];
    assert Get(d, "advisories") == Object(m) && Get(d, "vulnerabilities") == Null;
    var none: seq<Finding> := [];
    assert AdvisoryFindings(show, []) == Some(none);
    AdvisoriesNext(show, m[1..]);
    AdvisoriesNext(show, m);
    var fs := [Finding(Str("p"), Str(first), Str("a")), Finding(Str("p"), Str(second), Str("a"))];
    assert [fs[1]] + none == [fs[1]] && [fs[0]] + [fs[1]] == fs;
    assert AdvisoryFindings(show, m) == Some(fs);
    FindingsAre(show, Object(d), fs);
    ThenLaws(fs, [], None);
  }

  lemma FindingsClassified(lib: Lib, day: int)
    requires Sensible(lib, day)
    ensures Classify(lib, Finding(Str("p"), Str("high"), Str("a"))) == Keyed(("p", "a"), "high")
    ensures Classify(lib, Finding(Str("p"), Str("critical"), Str("a"))) == Keyed(("p", "a"), "critical")
  {
    hide Strip;
    StripTrimmed("p"); StripTrimmed("a"); StripTrimmed("high"); StripTrimmed("critical");
  }

  lemma HighOnlyListed(lib: Lib, day: int)
    requires Sensible(lib, day)
    ensures ListingOf(lib, Dict(map[], HIGH_ONLY)) == Indexed(("p", "a"), Entry("high", day))
  {
    hide Strip; hide Dict;
    HighOnlyDict();
    StripTrimmed("p"); StripTrimmed("a"); StripTrimmed("high");
    assert MissingFields(Dict(map[], HIGH_ONLY)) == {};
  }

  lemma HighOnlyDict()
    ensures
      Dict(map[], HIGH_ONLY)
      == map["package" := "p", "advisory" := "a", "severity" := "high", "mitigation" := "m", "expires_on" := "2030-01-01"]
  {
    var b1: Record := map["package" := "p"];
    var b2 := b1["advisory" := "a"];
    var b3 := b2["severity" := "high"];
    var b4 := b3["mitigation" := "m"];
    var b5 := b4["expires_on" := "2030-01-01"];
    var fs := HIGH_ONLY;
    assert Dict(b5, fs[1..][1..][1..][1..][1..]) == b5;
    assert Dict(b4, fs[1..][1..][1..][1..]) == b5;
    assert Dict(b3, fs[1..][1..][1..]) == b5;
    assert Dict(b2, fs[1..][1..]) == b5;
    assert Dict(b1, fs[1..]) == b5;
  }

  lemma OneRecordOk(lib: Lib, r: Record)
    requires ListingOf(lib, r).Indexed?
    ensures RecordsOk(lib, [r])
  {
  }
}
