// What the verdict of the release gate means, and how verdicts of different runs relate.

module AuditTheorems {
  import opened Wrappers
  import opened AuditText
  import opened AuditParser
  import opened AuditFindings
  import opened AuditGate

  // ----- The index -----

  ghost predicate Lists(lib: Lib, r: Record, key: Key) {
    ListingOf(lib, r).Indexed? && ListingOf(lib, r).key == key
  }

  ghost predicate Listed(lib: Lib, rs: seq<Record>, key: Key) {
    exists i :: 0 <= i < |rs| && Lists(lib, rs[i], key)
  }

  ghost predicate FirstListing(lib: Lib, rs: seq<Record>, i: int, key: Key) {
    0 <= i < |rs| && Lists(lib, rs[i], key) && !Listed(lib, rs[..i], key)
  }

  lemma ListedStep(lib: Lib, rs: seq<Record>, key: Key)
    requires rs != []
    ensures Listed(lib, rs, key) <==> Listed(lib, rs[..|rs| - 1], key) || Lists(lib, rs[|rs| - 1], key)
  {
    hide Lists;
    var before := rs[..|rs| - 1];
    if i :| 0 <= i < |rs| && Lists(lib, rs[i], key) {
      if i < |before| { assert Lists(lib, before[i], key); }
    }
    if i :| 0 <= i < |before| && Lists(lib, before[i], key) { assert Lists(lib, rs[i], key); }
  }

  lemma NothingListed(lib: Lib, key: Key)
    ensures !Listed(lib, [], key)
  {
  }

  // The index holds exactly the listed keys, each with the entry of the first record that
  // lists it.
  lemma {:induction false} IndexIsFirstWins(lib: Lib, rs: seq<Record>, key: Key)
    ensures key in BuildIndex(lib, rs).entries <==> Listed(lib, rs, key)
    ensures forall i | FirstListing(lib, rs, i, key) ::
              key in BuildIndex(lib, rs).entries && BuildIndex(lib, rs).entries[key] == ListingOf(lib, rs[i]).entry
  {
    hide ListingOf; hide Listed;
    if rs == [] {
      NothingListed(lib, key);
    } else {
      var n := |rs| - 1;
      IndexIsFirstWins(lib, rs[..n], key);
      ListedStep(lib, rs, key);
      forall i | FirstListing(lib, rs, i, key)
        ensures key in BuildIndex(lib, rs).entries && BuildIndex(lib, rs).entries[key] == ListingOf(lib, rs[i]).entry
      {
        if i < n {
          assert rs[..n][..i] == rs[..i];
          assert FirstListing(lib, rs[..n], i, key);
        }
      }
    }
  }

  // Every record is either indexed or reported.
  lemma {:induction false} IndexedOrReported(lib: Lib, rs: seq<Record>)
    ensures |BuildIndex(lib, rs).entries| + |BuildIndex(lib, rs).errors| == |rs|
  {
    hide ListingOf;
    if rs != [] {
      IndexedOrReported(lib, rs[..|rs| - 1]);
      var ix := BuildIndex(lib, rs[..|rs| - 1]);
      var c := ListingOf(lib, rs[|rs| - 1]);
      if c.Indexed? && c.key !in ix.entries {
        assert ix.entries[c.key := c.entry].Keys == ix.entries.Keys + {c.key};
      }
    }
  }

  // Every record is well formed and no two list the same key.
  ghost predicate RecordsOk(lib: Lib, rs: seq<Record>) {
    && (forall i | 0 <= i < |rs| :: ListingOf(lib, rs[i]).Indexed?)
    && (forall i, j | 0 <= i < j < |rs| :: ListingOf(lib, rs[i]).key != ListingOf(lib, rs[j]).key)
  }

  lemma OkStep(lib: Lib, rs: seq<Record>)
    requires rs != []
    ensures
      var n := |rs| - 1;
      var c := ListingOf(lib, rs[n]);
      RecordsOk(lib, rs) <==> RecordsOk(lib, rs[..n]) && c.Indexed? && !Listed(lib, rs[..n], c.key)
  {
    hide ListingOf;
    var n := |rs| - 1;
    var c := ListingOf(lib, rs[n]);
    assert forall i | 0 <= i < n :: rs[..n][i] == rs[i];
    if RecordsOk(lib, rs[..n]) && c.Indexed? && !Listed(lib, rs[..n], c.key) {
      forall i | 0 <= i < n ensures ListingOf(lib, rs[i]).Indexed? && ListingOf(lib, rs[i]).key != c.key {
        assert ListingOf(lib, rs[..n][i]).Indexed? && !Lists(lib, rs[..n][i], c.key);
      }
    }
  }

  lemma {:induction false} NoErrorsExactlyWhen(lib: Lib, rs: seq<Record>)
    ensures BuildIndex(lib, rs).errors == [] <==> RecordsOk(lib, rs)
  {
    hide ListingOf; hide Listed;
    if rs == [] {
      assert RecordsOk(lib, rs);
    } else {
      hide RecordsOk;
      var n := |rs| - 1;
      NoErrorsExactlyWhen(lib, rs[..n]);
      OkStep(lib, rs);
      var c := ListingOf(lib, rs[n]);
      if c.Indexed? { IndexIsFirstWins(lib, rs[..n], c.key); }
    }
  }

  // ----- The scan -----

  ghost predicate HasKey(lib: Lib, f: Finding, key: Key) {
    Classify(lib, f).Keyed? && Classify(lib, f).key == key
  }

  ghost predicate Accepts(entries: map<Key, Entry>, today: int, key: Key, severity: string) {
    && key in entries
    && (entries[key].severity == "" || entries[key].severity == severity)
    && today <= entries[key].expires
  }

  // Some finding with the key.
  ghost predicate Seen(lib: Lib, fs: seq<Finding>, key: Key) {
    exists k :: 0 <= k < |fs| && HasKey(lib, fs[k], key)
  }

  // Finding f adds no problem after the findings before it: it is not severe, repeated, or
  // accepted by the index.
  ghost predicate Quiet(lib: Lib, entries: map<Key, Entry>, today: int, before: seq<Finding>, f: Finding) {
    match Classify(lib, f)
    case Raises => false
    case Ignored => true
    case Unidentified => false
    case Keyed(key, severity) => Seen(lib, before, key) || Accepts(entries, today, key, severity)
  }

  ghost predicate AllQuiet(lib: Lib, entries: map<Key, Entry>, today: int, fs: seq<Finding>) {
    forall k | 0 <= k < |fs| :: Quiet(lib, entries, today, fs[..k], fs[k])
  }

  ghost predicate NoProblems(s: Scan) {
    s.errors == [] && s.notListed == [] && s.expired == []
  }

  lemma SeenStep(lib: Lib, fs: seq<Finding>, key: Key)
    requires fs != []
    ensures Seen(lib, fs, key) <==> Seen(lib, fs[..|fs| - 1], key) || HasKey(lib, fs[|fs| - 1], key)
  {
    hide HasKey;
    var before := fs[..|fs| - 1];
    if k :| 0 <= k < |fs| && HasKey(lib, fs[k], key) {
      if k < |before| { assert HasKey(lib, before[k], key); }
    }
    if k :| 0 <= k < |before| && HasKey(lib, before[k], key) { assert HasKey(lib, fs[k], key); }
  }

  lemma QuietStep(lib: Lib, entries: map<Key, Entry>, today: int, fs: seq<Finding>)
    requires fs != []
    ensures
      var n := |fs| - 1;
      AllQuiet(lib, entries, today, fs) <==> AllQuiet(lib, entries, today, fs[..n]) && Quiet(lib, entries, today, fs[..n], fs[n])
  {
    hide Quiet;
    var n := |fs| - 1;
    var before := fs[..n];
    assert forall k | 0 <= k < n :: before[..k] == fs[..k] && before[k] == fs[k];
    if AllQuiet(lib, entries, today, fs) {
      forall k | 0 <= k < n ensures Quiet(lib, entries, today, before[..k], before[k]) {
        assert Quiet(lib, entries, today, fs[..k], fs[k]);
      }
    }
    if AllQuiet(lib, entries, today, before) && Quiet(lib, entries, today, before, fs[n]) {
      forall k | 0 <= k < |fs| ensures Quiet(lib, entries, today, fs[..k], fs[k]) {
        if k < n { assert Quiet(lib, entries, today, before[..k], before[k]); }
      }
    }
  }

  ghost predicate SeenIs(lib: Lib, seen: set<Key>, fs: seq<Finding>) {
    forall key :: key in seen <==> Seen(lib, fs, key)
  }

  // One finding: what it does to the keys seen, and when it adds no problem.
  lemma LookMeans(lib: Lib, entries: map<Key, Entry>, today: int, before: seq<Finding>, s: Scan, f: Finding)
    requires SeenIs(lib, s.seen, before)
    ensures
      var t := Look(entries, today, s, f, Classify(lib, f));
      && (t.None? <==> Classify(lib, f) == Raises)
      && (t.Some? && NoProblems(t.value) <==> NoProblems(s) && Quiet(lib, entries, today, before, f))
      && (t.Some? ==> forall key :: key in t.value.seen <==> key in s.seen || HasKey(lib, f, key))
  {
    hide Classify; hide Seen;
  }

  // The scan raises exactly when some severity does, sees exactly the keys of its findings,
  // and has no problem exactly when every finding is quiet after those before it.
  lemma {:induction false} ScanMeans(lib: Lib, entries: map<Key, Entry>, today: int, fs: seq<Finding>)
    ensures
      var s := ScanAll(lib, entries, today, fs);
      && (s.None? <==> exists k :: 0 <= k < |fs| && Classify(lib, fs[k]) == Raises)
      && (s.Some? ==> SeenIs(lib, s.value.seen, fs))
      && (s.Some? && NoProblems(s.value) <==> AllQuiet(lib, entries, today, fs))
  {
    hide Classify; hide Seen; hide Quiet; hide HasKey; hide Look;
    if fs == [] {
      NothingSeen(lib);
    } else {
      hide AllQuiet; hide NoProblems;
      var n := |fs| - 1;
      ScanMeans(lib, entries, today, fs[..n]);
      QuietStep(lib, entries, today, fs);
      var b := ScanAll(lib, entries, today, fs[..n]);
      if b.None? {
        var k :| 0 <= k < n && Classify(lib, fs[..n][k]) == Raises;
        assert Classify(lib, fs[k]) == Raises;
      } else {
        assert forall k | 0 <= k < n :: Classify(lib, fs[k]) == Classify(lib, fs[..n][k]);
        LookMeans(lib, entries, today, fs[..n], b.value, fs[n]);
        forall key { SeenStep(lib, fs, key); }
      }
    }
  }

  lemma NothingSeen(lib: Lib)
    ensures SeenIs(lib, {}, [])
  {
  }

  // ----- Which problems are reported, and in which order -----

  // Record r, after those before it, is the reason for problem p.
  ghost predicate RecordReports(lib: Lib, before: seq<Record>, r: Record, p: Problem) {
    match p
    case MissingRequired(x, missing) => x == r && ListingOf(lib, r) == Incomplete(missing)
    case InvalidDate(x) => x == r && ListingOf(lib, r) == BadDate
    case MissingName => ListingOf(lib, r) == Nameless
    case Duplicate(key, x) => x == r && Lists(lib, r, key) && Listed(lib, before, key)
    case _ => false
  }

  // Finding f, after those before it, is the reason for problem p.
  ghost predicate FindingReports(lib: Lib, entries: map<Key, Entry>, today: int, before: seq<Finding>, f: Finding, p: Problem) {
    match p
    case MissingId(g) => g == f && Classify(lib, f) == Unidentified
    case Mismatch(g, listed) =>
      && g == f && IsFirst(lib, before, f) && Classify(lib, f).key in entries
      && listed == entries[Classify(lib, f).key].severity && listed != "" && listed != Classify(lib, f).severity
    case NotListed(g) => g == f && IsFirst(lib, before, f) && Classify(lib, f).key !in entries
    case Expired(g, day) =>
      && g == f && IsFirst(lib, before, f) && Classify(lib, f).key in entries
      && day == entries[Classify(lib, f).key].expires && day < today
    case _ => false
  }

  // A severe, named and identified finding whose key none before it has.
  ghost predicate IsFirst(lib: Lib, before: seq<Finding>, f: Finding) {
    Classify(lib, f).Keyed? && !Seen(lib, before, Classify(lib, f).key)
  }

  // Every record adds at most one problem behind those of the records before it: the one it is
  // the reason for.
  lemma RecordProblems(lib: Lib, rs: seq<Record>)
    requires rs != []
    ensures
      var n := |rs| - 1;
      var before, after := BuildIndex(lib, rs[..n]).errors, BuildIndex(lib, rs).errors;
      && before <= after && |after| <= |before| + 1
      && forall p :: p in after[|before|..] <==> RecordReports(lib, rs[..n], rs[n], p)
  {
    hide ListingOf; hide Listed;
    var n := |rs| - 1;
    var c := ListingOf(lib, rs[n]);
    if c.Indexed? { IndexIsFirstWins(lib, rs[..n], c.key); }
  }

  // And every finding adds its problems behind those of the findings before it: errors, missing
  // exceptions and expired ones each in their own list.
  lemma FindingProblems(lib: Lib, entries: map<Key, Entry>, today: int, fs: seq<Finding>)
    requires fs != [] && ScanAll(lib, entries, today, fs).Some?
    ensures ScanAll(lib, entries, today, fs[..|fs| - 1]).Some?
    ensures
      var n := |fs| - 1;
      var s, t := ScanAll(lib, entries, today, fs[..n]).value, ScanAll(lib, entries, today, fs).value;
      && s.errors <= t.errors && s.notListed <= t.notListed && s.expired <= t.expired
      && (forall p :: p in t.errors[|s.errors|..]
                      <==> (p.MissingId? || p.Mismatch?) && FindingReports(lib, entries, today, fs[..n], fs[n], p))
      && (forall p :: p in t.notListed[|s.notListed|..]
                      <==> p.NotListed? && FindingReports(lib, entries, today, fs[..n], fs[n], p))
      && (forall p :: p in t.expired[|s.expired|..]
                      <==> p.Expired? && FindingReports(lib, entries, today, fs[..n], fs[n], p))
  {
    hide Classify; hide Seen; hide Look; hide FindingReports; hide SeenIs; hide AllQuiet; hide NoProblems;
    var n := |fs| - 1;
    ScanMeans(lib, entries, today, fs[..n]);
    var s := ScanAll(lib, entries, today, fs[..n]).value;
    LookErrors(lib, entries, today, fs[..n], s, fs[n]);
    LookNotListed(lib, entries, today, fs[..n], s, fs[n]);
    LookExpired(lib, entries, today, fs[..n], s, fs[n]);
  }

  lemma LookErrors(lib: Lib, entries: map<Key, Entry>, today: int, before: seq<Finding>, s: Scan, f: Finding)
    requires SeenIs(lib, s.seen, before) && Look(entries, today, s, f, Classify(lib, f)).Some?
    ensures
      var t := Look(entries, today, s, f, Classify(lib, f)).value;
      && s.errors <= t.errors
      && forall p :: p in t.errors[|s.errors|..]
                     <==> (p.MissingId? || p.Mismatch?) && FindingReports(lib, entries, today, before, f, p)
  {
    hide Classify; hide Seen;
  }

  lemma LookNotListed(lib: Lib, entries: map<Key, Entry>, today: int, before: seq<Finding>, s: Scan, f: Finding)
    requires SeenIs(lib, s.seen, before) && Look(entries, today, s, f, Classify(lib, f)).Some?
    ensures
      var t := Look(entries, today, s, f, Classify(lib, f)).value;
      && s.notListed <= t.notListed
      && forall p :: p in t.notListed[|s.notListed|..]
                     <==> p.NotListed? && FindingReports(lib, entries, today, before, f, p)
  {
    hide Classify; hide Seen;
  }

  lemma LookExpired(lib: Lib, entries: map<Key, Entry>, today: int, before: seq<Finding>, s: Scan, f: Finding)
    requires SeenIs(lib, s.seen, before) && Look(entries, today, s, f, Classify(lib, f)).Some?
    ensures
      var t := Look(entries, today, s, f, Classify(lib, f)).value;
      && s.expired <= t.expired
      && forall p :: p in t.expired[|s.expired|..]
                     <==> p.Expired? && FindingReports(lib, entries, today, before, f, p)
  {
    hide Classify; hide Seen;
  }

  // The place of a problem in the report.
  function Rank(p: Problem): nat {
    match p
    case MissingRequired(_, _) => 0
    case InvalidDate(_) => 0
    case MissingName => 0
    case Duplicate(_, _) => 0
    case MissingId(_) => 1
    case Mismatch(_, _) => 1
    case NotListed(_) => 2
    case Expired(_, _) => 3
  }

  ghost predicate AllRank(ps: seq<Problem>, rank: nat) {
    forall i | 0 <= i < |ps| :: Rank(ps[i]) == rank
  }

  lemma {:induction false} IndexRank(lib: Lib, rs: seq<Record>)
    ensures AllRank(BuildIndex(lib, rs).errors, 0)
  {
    hide ListingOf;
    if rs != [] { IndexRank(lib, rs[..|rs| - 1]); }
  }

  lemma {:induction false} ScanRanks(lib: Lib, entries: map<Key, Entry>, today: int, fs: seq<Finding>)
    ensures
      var s := ScanAll(lib, entries, today, fs);
      s.Some? ==> AllRank(s.value.errors, 1) && AllRank(s.value.notListed, 2) && AllRank(s.value.expired, 3)
  {
    hide Classify;
    if fs != [] { ScanRanks(lib, entries, today, fs[..|fs| - 1]); }
  }

  // The report: problems of the exceptions, then of the findings, then the missing exceptions,
  // then the expired ones.
  lemma ReportIsSorted(lib: Lib, today: int, rs: seq<Record>, fs: seq<Finding>)
    ensures
      var v := Judge(lib, today, rs, fs);
      v.Failed? ==> v.problems != [] && forall i, j | 0 <= i < j < |v.problems| :: Rank(v.problems[i]) <= Rank(v.problems[j])
  {
    hide BuildIndex; hide ScanAll; hide Rank;
    IndexRank(lib, rs);
    ScanRanks(lib, BuildIndex(lib, rs).entries, today, fs);
  }

  // ----- What is read from a record and from a finding -----

  // A record is well formed exactly when its five fields are there and not empty, its date can
  // be read, and package and advisory are not blank; then it lists the stripped package and the
  // advisory in lower case, with its severity in lower case and its date.
  lemma WellFormedExactlyWhen(lib: Lib, r: Record)
    ensures ListingOf(lib, r).Indexed?
       <==> && (forall f | f in {"package", "advisory", "severity", "mitigation", "expires_on"} :: f in r && r[f] != "")
            && lib.date(r["expires_on"]).Some? && Strip(r["package"]) != "" && lib.lower(Strip(r["advisory"])) != ""
    ensures ListingOf(lib, r).Indexed? ==>
              ListingOf(lib, r) == Indexed((Strip(r["package"]), lib.lower(Strip(r["advisory"]))),
                                           Entry(lib.lower(Strip(r["severity"])), lib.date(r["expires_on"]).value))
    ensures ListingOf(lib, r).Incomplete?
       <==> exists f :: f in {"package", "advisory", "severity", "mitigation", "expires_on"} && (f !in r || r[f] == "")
  {
    hide Strip;
    assert REQUIRED == {"package", "advisory", "severity", "mitigation", "expires_on"};
  }

  // A finding is passed over exactly when its severity, in lower case, is neither "high" nor
  // "critical", or it has no name; it lacks an id exactly when that is None or blank; and else
  // its key is the stripped name and the id in lower case.
  lemma SevereExactlyWhen(lib: Lib, f: Finding)
    requires !(Truthy(f.severity) && !f.severity.Str?)
    ensures
      var severity := lib.lower(Strip(if f.severity.Str? then f.severity.s else ""));
      var name := if f.name.Str? then f.name.s else lib.show(f.name);
      var id := lib.lower(Strip(if f.id.Str? then f.id.s else lib.show(f.id)));
      var c := Classify(lib, f);
      && (c == Ignored <==> (severity != "high" && severity != "critical") || !Truthy(f.name))
      && (c != Ignored ==> (c == Unidentified <==> f.id == Null || id == ""))
      && (c != Ignored && c != Unidentified ==> c == Keyed((Strip(name), id), severity))
  {
    hide Strip;
  }

  // Two texts that differ in the white space around them and in what lower-casing evens out.
  predicate Alike(lib: Lib, a: string, b: string) {
    lib.lower(Strip(a)) == lib.lower(Strip(b))
  }

  // Two values that are both missing, or texts alike.
  predicate AlikeValues(lib: Lib, v: Json, w: Json) {
    v == w || (v.Str? && w.Str? && (v.s == "" <==> w.s == "") && Alike(lib, v.s, w.s))
  }

  // Findings that are named alike, up to white space, and whose severities and ids are alike.
  predicate AlikeFindings(lib: Lib, f: Finding, g: Finding) {
    && (f.name == g.name
        || (f.name.Str? && g.name.Str? && (f.name.s == "" <==> g.name.s == "") && Strip(f.name.s) == Strip(g.name.s)))
    && AlikeValues(lib, f.severity, g.severity) && AlikeValues(lib, f.id, g.id)
  }

  // Records whose fields are present alike and whose package, advisory, severity and date agree.
  predicate AlikeRecords(lib: Lib, r: Record, q: Record) {
    && (forall f | f in {"package", "advisory", "severity", "mitigation", "expires_on"} ::
          (f in r && r[f] != "") <==> (f in q && q[f] != ""))
    && ("package" in r && "package" in q ==> Strip(r["package"]) == Strip(q["package"]))
    && ("advisory" in r && "advisory" in q ==> Alike(lib, r["advisory"], q["advisory"]))
    && ("severity" in r && "severity" in q ==> Alike(lib, r["severity"], q["severity"]))
    && ("expires_on" in r && "expires_on" in q ==> lib.date(r["expires_on"]) == lib.date(q["expires_on"]))
  }

  lemma AlikeAreClassedAlike(lib: Lib, f: Finding, g: Finding)
    requires AlikeFindings(lib, f, g)
    ensures Classify(lib, f) == Classify(lib, g)
  {
    hide Strip;
  }

  lemma AlikeAreListedAlike(lib: Lib, r: Record, q: Record)
    requires AlikeRecords(lib, r, q)
    ensures ListingOf(lib, r).Indexed? <==> ListingOf(lib, q).Indexed?
    ensures ListingOf(lib, r).Indexed? ==> ListingOf(lib, r) == ListingOf(lib, q)
  {
    hide Strip; hide ListingOf;
    WellFormedExactlyWhen(lib, r);
    WellFormedExactlyWhen(lib, q);
  }
}
