// The release gate: the index of exceptions, the scan of the findings, and the verdict.

module AuditGate {
  import opened Wrappers
  import opened AuditText
  import opened AuditParser
  import opened AuditFindings

  // What the gate takes from Python: str.lower, str of a value that is not a string, and
  // date.fromisoformat as a day number.
  datatype Lib = Lib(lower: string -> string, show: Json -> string, date: string -> Option<int>)

  const HIGH: set<string> := {"high", "critical"}
  const REQUIRED: set<string> := {"package", "advisory", "severity", "mitigation", "expires_on"}

  type Key = (string, string)

  datatype Entry = Entry(severity: string, expires: int)

  // What the first loop makes of one exception.
  datatype Listing =
    | Incomplete(missing: set<string>)
    | BadDate
    | Nameless
    | Indexed(key: Key, entry: Entry)

  function MissingFields(r: Record): set<string> {
    set f | f in REQUIRED && (f !in r || r[f] == "")
  }

  function Normalize(lib: Lib, s: string): string {
    lib.lower(Strip(s))
  }

  function ListingOf(lib: Lib, r: Record): (c: Listing)
    ensures c.Incomplete? <==> exists f :: f in REQUIRED && (f !in r || r[f] == "")
  {
    if MissingFields(r) != {} then
      var f :| f in MissingFields(r);
      assert f in REQUIRED && (f !in r || r[f] == "");
      Incomplete(MissingFields(r))
    else
      assert forall f | f in REQUIRED :: f !in MissingFields(r);
      assert "package" in REQUIRED && "advisory" in REQUIRED && "severity" in REQUIRED && "expires_on" in REQUIRED;
      var day := lib.date(r["expires_on"]);
      var key := (Strip(r["package"]), Normalize(lib, r["advisory"]));
      if day.None? then BadDate
      else if key.0 == "" || key.1 == "" then Nameless
      else Indexed(key, Entry(Normalize(lib, r["severity"]), day.value))
  }

  // What the second loop makes of one finding.
  datatype Class =
    | Raises
    | Ignored
    | Unidentified
    | Keyed(key: Key, severity: string)

  function Classify(lib: Lib, f: Finding): Class {
    if Truthy(f.severity) && !f.severity.Str? then Raises
    else
      var severity := if Truthy(f.severity) then Normalize(lib, f.severity.s) else Normalize(lib, "");
      if severity !in HIGH || !Truthy(f.name) then Ignored
      else
        var advisory := if f.id == Null then "" else Normalize(lib, ToStr(lib.show, f.id));
        if advisory == "" then Unidentified
        else Keyed((Strip(ToStr(lib.show, f.name)), advisory), severity)
  }

  datatype Problem =
    | MissingRequired(r: Record, missing: set<string>)
    | InvalidDate(r: Record)
    | MissingName
    | Duplicate(key: Key, r: Record)
    | MissingId(f: Finding)
    | Mismatch(f: Finding, listed: string)
    | NotListed(f: Finding)
    | Expired(f: Finding, day: int)

  // ----- The index of exceptions -----

  datatype Index = Index(entries: map<Key, Entry>, errors: seq<Problem>)

  function AddListing(ix: Index, r: Record, c: Listing): Index {
    match c
    case Incomplete(missing) => ix.(errors := ix.errors + [MissingRequired(r, missing)])
    case BadDate => ix.(errors := ix.errors + [InvalidDate(r)])
    case Nameless => ix.(errors := ix.errors + [MissingName])
    case Indexed(key, entry) =>
      if key in ix.entries then ix.(errors := ix.errors + [Duplicate(key, r)])
      else ix.(entries := ix.entries[key := entry])
  }

  function BuildIndex(lib: Lib, rs: seq<Record>): Index {
    if rs == [] then Index(map[], [])
    else
      var r := rs[|rs| - 1];
      AddListing(BuildIndex(lib, rs[..|rs| - 1]), r, ListingOf(lib, r))
  }

  // ----- The scan -----

  datatype Scan = Scan(seen: set<Key>, errors: seq<Problem>, notListed: seq<Problem>, expired: seq<Problem>)

  function Look(entries: map<Key, Entry>, today: int, s: Scan, f: Finding, c: Class): Option<Scan> {
    match c
    case Raises => None
    case Ignored => Some(s)
    case Unidentified => Some(s.(errors := s.errors + [MissingId(f)]))
    case Keyed(key, severity) =>
      if key in s.seen then Some(s)
      else
        var s1 := s.(seen := s.seen + {key});
        if key !in entries then Some(s1.(notListed := s1.notListed + [NotListed(f)]))
        else
          var e := entries[key];
          var s2 := if e.severity != "" && e.severity != severity
                    then s1.(errors := s1.errors + [Mismatch(f, e.severity)]) else s1;
          Some(if e.expires < today then s2.(expired := s2.expired + [Expired(f, e.expires)]) else s2)
  }

  // The findings in order; None when one raises.
  function ScanAll(lib: Lib, entries: map<Key, Entry>, today: int, fs: seq<Finding>): Option<Scan> {
    if fs == [] then Some(Scan({}, [], [], []))
    else
      var before := ScanAll(lib, entries, today, fs[..|fs| - 1]);
      var f := fs[|fs| - 1];
      if before.None? then None else Look(entries, today, before.value, f, Classify(lib, f))
  }

  // What the run of the gate ends in: an exception, exit code 1 with problems, or exit code 0.
  datatype Verdict = Raised | Failed(problems: seq<Problem>) | Passed

  function Judge(lib: Lib, today: int, rs: seq<Record>, fs: seq<Finding>): Verdict {
    var ix := BuildIndex(lib, rs);
    var s := ScanAll(lib, ix.entries, today, fs);
    if s.None? then Raised
    else
      var problems := ix.errors + s.value.errors + s.value.notListed + s.value.expired;
      if problems == [] then Passed else Failed(problems)
  }

  function Gate(lib: Lib, today: int, audit: Json, text: string): Verdict {
    var rs, fs := Parse(Lines(text)), Findings(lib.show, audit);
    if rs.None? || fs.None? then Raised else Judge(lib, today, rs.value, fs.value)
  }

  // ----- The loops of main -----

  method IndexExceptions(lib: Lib, rs: seq<Record>) returns (ix: Index)
    ensures ix == BuildIndex(lib, rs)
  {
    hide ListingOf;
    ix := Index(map[], []);
    for i := 0 to |rs|
      invariant ix == BuildIndex(lib, rs[..i])
    {
      assert rs[..i + 1][..i] == rs[..i];
      ix := AddListing(ix, rs[i], ListingOf(lib, rs[i]));
    }
    assert rs[..|rs|] == rs;
  }

  lemma {:induction false} RaisesForGood(lib: Lib, entries: map<Key, Entry>, today: int, fs: seq<Finding>, i: nat)
    requires i <= |fs| && ScanAll(lib, entries, today, fs[..i]).None?
    ensures ScanAll(lib, entries, today, fs).None?
    decreases |fs| - i
  {
    hide Classify;
    if i == |fs| {
      assert fs[..i] == fs;
    } else {
      assert fs[..i + 1][..i] == fs[..i];
      RaisesForGood(lib, entries, today, fs, i + 1);
    }
  }

  method ScanFindings(lib: Lib, entries: map<Key, Entry>, today: int, fs: seq<Finding>) returns (r: Option<Scan>)
    ensures r == ScanAll(lib, entries, today, fs)
  {
    hide Classify; hide Look;
    r := Some(Scan({}, [], [], []));
    for i := 0 to |fs|
      invariant r == ScanAll(lib, entries, today, fs[..i]) && r.Some?
    {
      assert fs[..i + 1][..i] == fs[..i];
      r := Look(entries, today, r.value, fs[i], Classify(lib, fs[i]));
      if r.None? {
        RaisesForGood(lib, entries, today, fs, i + 1);
        return;
      }
    }
    assert fs[..|fs|] == fs;
  }

  method RunGate(lib: Lib, today: int, audit: Json, text: string) returns (v: Verdict)
    ensures v == Gate(lib, today, audit, text)
  {
    hide Parse; hide Findings; hide BuildIndex; hide ScanAll;
    var rs := ParseExceptions(Lines(text));
    if rs.None? { return Raised; }
    var ix := IndexExceptions(lib, rs.value);
    var fs := IterVulns(lib.show, audit);
    if fs.None? { return Raised; }
    var s := ScanFindings(lib, ix.entries, today, fs.value);
    if s.None? { return Raised; }
    var errors := ix.errors + s.value.errors;
    if s.value.notListed != [] { errors := errors + s.value.notListed; }
    if s.value.expired != [] { errors := errors + s.value.expired; }
    v := if errors != [] then Failed(errors) else Passed;
  }
}
