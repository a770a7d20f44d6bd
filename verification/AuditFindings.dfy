// iter_vulns: the findings of an audit document, in the order the generator yields them.

module AuditFindings {
  import opened Wrappers
  import opened AuditText

  // A loaded JSON document. An object lists its members in insertion order.
  datatype Json =
    | Null
    | Bool(b: bool)
    | Number(n: int)
    | Str(s: string)
    | List(items: seq<Json>)
    | Object(members: seq<(string, Json)>)

  predicate Truthy(v: Json) {
    match v
    case Null => false
    case Bool(b) => b
    case Number(n) => n != 0
    case Str(s) => s != ""
    case List(items) => items != []
    case Object(members) => members != []
  }

  function Get(members: seq<(string, Json)>, name: string): Json {
    if members == [] then Null
    else if members[0].0 == name then members[0].1
    else Get(members[1..], name)
  }

  function Or(a: Json, b: Json): Json {
    if Truthy(a) then a else b
  }

  // str() of a value; `show` is str() of one that is not a string.
  function ToStr(show: Json -> string, v: Json): string {
    if v.Str? then v.s else show(v)
  }

  datatype Finding = Finding(name: Json, severity: Json, id: Json)

  // (cves or [None])[0]; None when indexing raises.
  function FirstCve(cves: Json): Option<Json> {
    if !Truthy(cves) then Some(Null)
    else
      match cves
      case List(items) => Some(items[0])
      case Str(s) => Some(Str([s[0]]))
      case _ => None
  }

  function PickAdvisoryId(show: Json -> string, a: seq<(string, Json)>): Option<Json> {
    var stable := Or(Get(a, "github_advisory_id"), Get(a, "url"));
    if Truthy(stable) then Some(stable)
    else
      var cve := FirstCve(Get(a, "cves"));
      if cve.None? then None
      else
        var id := if Get(a, "id") != Null then Str(ToStr(show, Get(a, "id"))) else Null;
        Some(Or(cve.value, Or(id, Or(Get(a, "title"), Or(Get(a, "advisory"), Get(a, "overview"))))))
  }

  function AdvisoryFinding(show: Json -> string, advisory: Json): Option<Finding> {
    match advisory
    case Object(a) =>
      var id := PickAdvisoryId(show, a);
      if id.None? then None
      else Some(Finding(Or(Get(a, "module_name"), Get(a, "name")), Get(a, "severity"), id.value))
    case _ => None
  }

  // The values of a dict of advisories, one finding each.
  function AdvisoryFindings(show: Json -> string, advisories: seq<(string, Json)>): Option<seq<Finding>> {
    if advisories == [] then Some([])
    else
      var first := AdvisoryFinding(show, advisories[0].1);
      var rest := AdvisoryFindings(show, advisories[1..]);
      if first.None? || rest.None? then None else Some([first.value] + rest.value)
  }

  // The id and the title of one item of `via`; other items are passed over.
  function ViaItem(item: Json): Option<(Json, Json)> {
    match item
    case Object(a) =>
      var id := Or(Get(a, "github_advisory_id"), Or(Get(a, "url"), Or(Get(a, "source"), Or(Get(a, "title"), Get(a, "name")))));
      var title := Or(Get(a, "title"), Or(Get(a, "url"), Or(Get(a, "advisory"), Get(a, "source"))));
      Some((id, title))
    case Str(_) => Some((item, item))
    case _ => None
  }

  function ViaIds(items: seq<Json>): seq<Json> {
    if items == [] then []
    else
      var first := ViaItem(items[0]);
      (if first.Some? && Truthy(first.value.0) then [first.value.0] else []) + ViaIds(items[1..])
  }

  // "; ".join raises on a title that is not a string.
  predicate TitleJoins(item: Json) {
    var v := ViaItem(item);
    v.Some? && Truthy(v.value.1) ==> v.value.1.Str?
  }

  predicate TitlesJoin(items: seq<Json>) {
    forall i | 0 <= i < |items| :: TitleJoins(items[i])
  }

  // `via` as a list; a string stands for a list of itself and anything else for none.
  function ViaList(vuln: seq<(string, Json)>): seq<Json> {
    match Get(vuln, "via")
    case List(items) => items
    case Str(s) => [Str(s)]
    case _ => []
  }

  function Named(name: string, severity: Json, ids: seq<Json>): (r: seq<Finding>)
    ensures |r| == |ids| && forall i | 0 <= i < |ids| :: r[i] == Finding(Str(name), severity, ids[i])
  {
    seq(|ids|, i requires 0 <= i < |ids| => Finding(Str(name), severity, ids[i]))
  }

  function VulnFindings(name: string, vuln: Json): Option<seq<Finding>> {
    match vuln
    case Object(v) =>
      if !TitlesJoin(ViaList(v)) then None else Some(Named(name, Get(v, "severity"), ViaIds(ViaList(v))))
    case _ => None
  }

  function VulnsFindings(vulns: seq<(string, Json)>): Option<seq<Finding>> {
    if vulns == [] then Some([])
    else
      var first := VulnFindings(vulns[0].0, vulns[0].1);
      var rest := VulnsFindings(vulns[1..]);
      if first.None? || rest.None? then None else Some(first.value + rest.value)
  }

  // All findings of a document; None when the generator raises.
  function Findings(show: Json -> string, data: Json): Option<seq<Finding>> {
    match data
    case Object(d) =>
      var a := match Get(d, "advisories") { case Object(m) => AdvisoryFindings(show, m) case _ => Some([]) };
      var v := match Get(d, "vulnerabilities") { case Object(m) => VulnsFindings(m) case _ => Some([]) };
      if a.None? || v.None? then None else Some(a.value + v.value)
    case _ => None
  }

  // ----- The id of an advisory -----

  // The candidates in the order of preference, once cves is something that can be indexed.
  function Candidates(show: Json -> string, a: seq<(string, Json)>, cve: Json): seq<Json> {
    [Get(a, "github_advisory_id"), Get(a, "url"), cve,
     match Get(a, "id") { case Null => Null case Str(s) => Str(s) case id => Str(show(id)) },
     Get(a, "title"), Get(a, "advisory"), Get(a, "overview")]
  }

  ghost predicate FirstTruthy(cs: seq<Json>, k: nat) {
    k < |cs| && Truthy(cs[k]) && forall j | 0 <= j < k :: !Truthy(cs[j])
  }

  // a or b or .. or z
  function OrAll(cs: seq<Json>): Json
    requires cs != []
  {
    if |cs| == 1 then cs[0] else Or(cs[0], OrAll(cs[1..]))
  }

  lemma {:induction false} OrAllIsFirst(cs: seq<Json>)
    requires cs != []
    ensures Truthy(OrAll(cs)) <==> exists k :: 0 <= k < |cs| && Truthy(cs[k])
    ensures !Truthy(OrAll(cs)) ==> OrAll(cs) == cs[|cs| - 1]
    ensures forall k: nat | FirstTruthy(cs, k) :: OrAll(cs) == cs[k]
  {
    hide Truthy;
    var rest := cs[1..];
    if rest != [] {
      OrAllIsFirst(rest);
      if k :| 0 <= k < |cs| && Truthy(cs[k]) {
        if k > 0 { assert Truthy(rest[k - 1]); }
      }
      if k :| 0 <= k < |rest| && Truthy(rest[k]) { assert Truthy(cs[k + 1]); }
      forall k: nat | FirstTruthy(cs, k) ensures OrAll(cs) == cs[k] {
        if k > 0 { assert !Truthy(cs[0]) && FirstTruthy(rest, k - 1); }
      }
    }
  }

  // The first candidate with a value is picked. It raises only over a cves that cannot be
  // indexed, and only when neither the GHSA id nor the URL has a value.
  lemma PicksFirstTruthy(show: Json -> string, a: seq<(string, Json)>)
    ensures
      var r := PickAdvisoryId(show, a);
      var cve := FirstCve(Get(a, "cves"));
      var cs := Candidates(show, a, cve.GetOr(Null));
      && (r.None? <==> cve.None? && !Truthy(cs[0]) && !Truthy(cs[1]))
      && (r.Some? ==> (Truthy(r.value) <==> exists k :: 0 <= k < |cs| && Truthy(cs[k])))
      && (r.Some? ==> forall k: nat | FirstTruthy(cs, k) :: r.value == cs[k])
  {
    hide Get; hide FirstCve; hide FirstTruthy; hide Truthy; hide OrAll;
    var cs := Candidates(show, a, FirstCve(Get(a, "cves")).GetOr(Null));
    OrAllIsFirst(cs);
    SevenOrs(cs);
  }

  lemma SevenOrs(cs: seq<Json>)
    requires |cs| == 7
    ensures OrAll(cs) == Or(cs[0], Or(cs[1], Or(cs[2], Or(cs[3], Or(cs[4], Or(cs[5], cs[6]))))))
  {
    hide Or;
    var c1 := cs[1..];
    var c2 := c1[1..];
    var c3 := c2[1..];
    var c4 := c3[1..];
    var c5 := c4[1..];
    assert OrAll(c5) == Or(cs[5], cs[6]);
    assert OrAll(c4) == Or(cs[4], OrAll(c5));
    assert OrAll(c3) == Or(cs[3], OrAll(c4));
    assert OrAll(c2) == Or(cs[2], OrAll(c3));
    assert OrAll(c1) == Or(cs[1], OrAll(c2));
  }

  // ----- Which documents can be read -----

  // `cves` is missing, empty, or can be indexed by 0.
  predicate Indexable(cves: Json) {
    Truthy(cves) ==> cves.List? || cves.Str?
  }

  // The id of the advisory can be picked without indexing a cves that cannot be.
  predicate ReadableAdvisory(advisory: Json) {
    advisory.Object? &&
    var a := advisory.members;
    Truthy(Get(a, "github_advisory_id")) || Truthy(Get(a, "url")) || Indexable(Get(a, "cves"))
  }

  function TitleCandidates(a: seq<(string, Json)>): seq<Json> {
    [Get(a, "title"), Get(a, "url"), Get(a, "advisory"), Get(a, "source")]
  }

  // The first of title, url, advisory and source that has a value is text.
  ghost predicate TextTitle(item: Json) {
    item.Object? ==> forall k: nat | FirstTruthy(TitleCandidates(item.members), k) :: TitleCandidates(item.members)[k].Str?
  }

  ghost predicate ReadableVulnerability(vuln: Json) {
    vuln.Object? && forall i | 0 <= i < |ViaList(vuln.members)| :: TextTitle(ViaList(vuln.members)[i])
  }

  // An object whose advisories and vulnerabilities, where they are objects, can all be read.
  ghost predicate Readable(data: Json) {
    data.Object? &&
    var a, v := Get(data.members, "advisories"), Get(data.members, "vulnerabilities");
    && (a.Object? ==> forall i | 0 <= i < |a.members| :: ReadableAdvisory(a.members[i].1))
    && (v.Object? ==> forall i | 0 <= i < |v.members| :: ReadableVulnerability(v.members[i].1))
  }

  lemma AdvisoryReadable(show: Json -> string, advisory: Json)
    ensures AdvisoryFinding(show, advisory).Some? <==> ReadableAdvisory(advisory)
  {
    hide Get; hide Truthy; hide FirstCve; hide Indexable;
    if advisory.Object? {
      PicksFirstTruthy(show, advisory.members);
      CveIndexable(Get(advisory.members, "cves"));
    }
  }

  lemma CveIndexable(cves: Json)
    ensures FirstCve(cves).Some? <==> Indexable(cves)
  {
  }

  lemma FourOrs(cs: seq<Json>)
    requires |cs| == 4
    ensures OrAll(cs) == Or(cs[0], Or(cs[1], Or(cs[2], cs[3])))
  {
    hide Or;
    var c1 := cs[1..];
    var c2 := c1[1..];
    assert OrAll(c2) == Or(cs[2], cs[3]);
    assert OrAll(c1) == Or(cs[1], OrAll(c2));
  }

  lemma {:induction false} SomeFirst(cs: seq<Json>, k: nat) returns (j: nat)
    requires k < |cs| && Truthy(cs[k])
    ensures FirstTruthy(cs, j)
  {
    if i :| 0 <= i < k && Truthy(cs[i]) { j := SomeFirst(cs, i); } else { j := k; }
  }

  lemma TitleIsText(item: Json)
    ensures TitleJoins(item) <==> TextTitle(item)
  {
    hide Get; hide Truthy; hide OrAll; hide FirstTruthy;
    if item.Object? {
      var cs := TitleCandidates(item.members);
      FourOrs(cs);
      OrAllIsFirst(cs);
      if Truthy(OrAll(cs)) {
        var k :| 0 <= k < |cs| && Truthy(cs[k]);
        var j := SomeFirst(cs, k);
      } else {
        forall k: nat | FirstTruthy(cs, k) ensures false { FirstIsTruthy(cs, k); }
      }
    }
  }

  lemma FirstIsTruthy(cs: seq<Json>, k: nat)
    requires FirstTruthy(cs, k)
    ensures k < |cs| && Truthy(cs[k])
  {
  }

  lemma VulnerabilityReadable(name: string, vuln: Json)
    ensures VulnFindings(name, vuln).Some? <==> ReadableVulnerability(vuln)
  {
    hide ViaList; hide TitleJoins; hide TextTitle;
    if vuln.Object? {
      forall i | 0 <= i < |ViaList(vuln.members)|
        ensures TitleJoins(ViaList(vuln.members)[i]) <==> TextTitle(ViaList(vuln.members)[i])
      {
        TitleIsText(ViaList(vuln.members)[i]);
      }
    }
  }

  lemma {:induction false} AdvisoriesReadable(show: Json -> string, m: seq<(string, Json)>)
    ensures AdvisoryFindings(show, m).Some? <==> forall i | 0 <= i < |m| :: ReadableAdvisory(m[i].1)
    ensures AdvisoryFindings(show, m).Some? ==>
              && |AdvisoryFindings(show, m).value| == |m|
              && forall i | 0 <= i < |m| :: AdvisoryFinding(show, m[i].1) == Some(AdvisoryFindings(show, m).value[i])
  {
    hide AdvisoryFinding; hide ReadableAdvisory;
    if m != [] {
      AdvisoryReadable(show, m[0].1);
      AdvisoriesReadable(show, m[1..]);
      assert forall i | 1 <= i < |m| :: m[i] == m[1..][i - 1];
      if AdvisoryFindings(show, m).Some? {
        var fs, gs := AdvisoryFindings(show, m).value, AdvisoryFindings(show, m[1..]).value;
        forall i | 0 <= i < |m| ensures AdvisoryFinding(show, m[i].1) == Some(fs[i]) {
          if i > 0 { assert fs[i] == gs[i - 1]; }
        }
      } else if ReadableAdvisory(m[0].1) {
        var i :| 0 <= i < |m| - 1 && !ReadableAdvisory(m[1..][i].1);
        assert m[1..][i] == m[i + 1];
      }
    }
  }

  lemma {:induction false} VulnsReadable(m: seq<(string, Json)>)
    ensures VulnsFindings(m).Some? <==> forall i | 0 <= i < |m| :: ReadableVulnerability(m[i].1)
    ensures VulnsFindings(m).Some? ==>
              && (forall i | 0 <= i < |m| :: VulnFindings(m[i].0, m[i].1).Some?)
              && forall f :: f in VulnsFindings(m).value
                             <==> exists i :: 0 <= i < |m| && f in VulnFindings(m[i].0, m[i].1).value
  {
    hide VulnFindings; hide ReadableVulnerability;
    if m != [] {
      var rest := m[1..];
      VulnerabilityReadable(m[0].0, m[0].1);
      VulnsReadable(rest);
      assert forall i | 0 <= i < |rest| :: rest[i] == m[i + 1];
      assert forall i | 1 <= i < |m| :: m[i] == rest[i - 1];
      if VulnsFindings(m).Some? {
        VulnsUnion(m);
      } else if ReadableVulnerability(m[0].1) {
        var i :| 0 <= i < |rest| && !ReadableVulnerability(rest[i].1);
        assert rest[i] == m[i + 1];
      }
    }
  }

  lemma VulnsUnion(m: seq<(string, Json)>)
    requires m != [] && VulnsFindings(m).Some? && VulnsFindings(m[1..]).Some?
    requires forall i | 0 <= i < |m| :: VulnFindings(m[i].0, m[i].1).Some?
    requires forall f :: f in VulnsFindings(m[1..]).value
                         <==> exists i :: 0 <= i < |m| - 1 && f in VulnFindings(m[1..][i].0, m[1..][i].1).value
    ensures forall f :: f in VulnsFindings(m).value
                        <==> exists i :: 0 <= i < |m| && f in VulnFindings(m[i].0, m[i].1).value
  {
    hide VulnFindings;
    var rest := m[1..];
    forall f ensures f in VulnsFindings(m).value <==> exists i :: 0 <= i < |m| && f in VulnFindings(m[i].0, m[i].1).value {
      assert f in VulnsFindings(m).value <==> f in VulnFindings(m[0].0, m[0].1).value || f in VulnsFindings(rest).value;
      if i :| 0 <= i < |m| && f in VulnFindings(m[i].0, m[i].1).value {
        if i > 0 { assert rest[i - 1] == m[i]; }
      }
      if i :| 0 <= i < |rest| && f in VulnFindings(rest[i].0, rest[i].1).value {
        assert rest[i] == m[i + 1];
      }
    }
  }

  // The generator gets through a document exactly when it is an object in which the id of
  // every advisory can be picked and the titles of every vulnerability can be joined.
  lemma ReadableExactlyWhen(show: Json -> string, data: Json)
    ensures Findings(show, data).Some? <==> Readable(data)
  {
    hide AdvisoryFindings; hide VulnsFindings; hide Get; hide ReadableAdvisory; hide ReadableVulnerability;
    if data.Object? {
      var a, v := Get(data.members, "advisories"), Get(data.members, "vulnerabilities");
      if a.Object? { AdvisoriesReadable(show, a.members); }
      if v.Object? { VulnsReadable(v.members); }
    }
  }

  // ----- The generator as loops -----

  lemma ViaIdsNext(items: seq<Json>, i: nat)
    requires i < |items|
    ensures
      ViaIds(items[i..])
      == (if ViaItem(items[i]).Some? && Truthy(ViaItem(items[i]).value.0) then [ViaItem(items[i]).value.0] else [])
         + ViaIds(items[i + 1..])
  {
    assert items[i..][1..] == items[i + 1..];
  }

  lemma NoViaIds()
    ensures ViaIds([]) == []
  {
  }

  method ListVia(items: seq<Json>) returns (ids: seq<Json>, joins: bool)
    ensures ids == ViaIds(items) && joins == TitlesJoin(items)
  {
    hide ViaItem; hide ViaIds; hide Truthy;
    ids, joins := [], true;
    for i := 0 to |items|
      invariant ids + ViaIds(items[i..]) == ViaIds(items)
      invariant joins <==> forall j | 0 <= j < i :: TitleJoins(items[j])
    {
      ViaIdsNext(items, i);
      var v := ViaItem(items[i]);
      if v.Some? {
        if Truthy(v.value.0) { ids := ids + [v.value.0]; }
        if Truthy(v.value.1) && !v.value.1.Str? { joins := false; }
      }
    }
    NoViaIds();
    assert items[|items|..] == [];
  }

  lemma {:induction false} AdvisoriesRaise(show: Json -> string, advisories: seq<(string, Json)>, i: nat)
    requires i < |advisories| && AdvisoryFinding(show, advisories[i].1).None?
    ensures AdvisoryFindings(show, advisories).None?
  {
    if i > 0 { AdvisoriesRaise(show, advisories[1..], i - 1); }
  }

  lemma {:induction false} VulnsRaise(vulns: seq<(string, Json)>, i: nat)
    requires i < |vulns| && VulnFindings(vulns[i].0, vulns[i].1).None?
    ensures VulnsFindings(vulns).None?
  {
    if i > 0 { VulnsRaise(vulns[1..], i - 1); }
  }

  // found, then the rest, when both did not raise.
  function Then(found: seq<Finding>, rest: Option<seq<Finding>>): Option<seq<Finding>> {
    if rest.None? then None else Some(found + rest.value)
  }

  lemma ThenLaws(found: seq<Finding>, more: seq<Finding>, rest: Option<seq<Finding>>)
    ensures Then([], rest) == rest && Then(found, Some([])) == Some(found)
    ensures Then(found + more, rest) == Then(found, Then(more, rest))
  {
    assert found + [] == found;
    if rest.Some? {
      assert [] + rest.value == rest.value;
      assert found + more + rest.value == found + (more + rest.value);
    }
  }

  method IterVulns(show: Json -> string, data: Json) returns (r: Option<seq<Finding>>)
    ensures r == Findings(show, data)
    ensures r.Some? <==> Readable(data)
  {
    hide AdvisoryFinding; hide VulnFindings; hide ViaItem; hide Get; hide Then; hide Readable;
    ReadableExactlyWhen(show, data);
    if !data.Object? { return None; }
    var found: seq<Finding> := [];
    var advisories := Get(data.members, "advisories");
    if advisories.Object? {
      var m := advisories.members;
      ThenLaws([], [], AdvisoryFindings(show, m));
      for i := 0 to |m|
        invariant Then(found, AdvisoryFindings(show, m[i..])) == AdvisoryFindings(show, m)
      {
        assert m[i..][1..] == m[i + 1..];
        var finding := AdvisoryFinding(show, m[i].1);
        if finding.None? {
          AdvisoriesRaise(show, m, i);
          return None;
        }
        AdvisoriesNext(show, m[i..]);
        ThenLaws(found, [finding.value], AdvisoryFindings(show, m[i + 1..]));
        found := found + [finding.value];
      }
      ThenLaws(found, [], None);
    }
    var vulnerabilities := Get(data.members, "vulnerabilities");
    if vulnerabilities.Object? {
      var m := vulnerabilities.members;
      var start := found;
      for i := 0 to |m|
        invariant Then(found, VulnsFindings(m[i..])) == Then(start, VulnsFindings(m))
      {
        assert m[i..][1..] == m[i + 1..];
        var more := VulnerabilityFindings(m[i].0, m[i].1);
        if more.None? {
          VulnsRaise(m, i);
          return None;
        }
        VulnsNext(m[i..]);
        ThenLaws(found, more.value, VulnsFindings(m[i + 1..]));
        found := found + more.value;
      }
      ThenLaws(found, [], None);
      FindingsAre(show, data, start);
    } else {
      ThenLaws(found, [], None);
      FindingsAre(show, data, found);
    }
    r := Some(found);
  }

  lemma AdvisoriesNext(show: Json -> string, m: seq<(string, Json)>)
    requires m != [] && AdvisoryFinding(show, m[0].1).Some?
    ensures AdvisoryFindings(show, m) == Then([AdvisoryFinding(show, m[0].1).value], AdvisoryFindings(show, m[1..]))
  {
  }

  lemma VulnsNext(m: seq<(string, Json)>)
    requires m != [] && VulnFindings(m[0].0, m[0].1).Some?
    ensures VulnsFindings(m) == Then(VulnFindings(m[0].0, m[0].1).value, VulnsFindings(m[1..]))
  {
  }

  lemma FindingsAre(show: Json -> string, data: Json, found: seq<Finding>)
    requires data.Object?
    requires
      match Get(data.members, "advisories")
      case Object(m) => AdvisoryFindings(show, m) == Some(found)
      case _ => found == []
    ensures
      Findings(show, data)
      == match Get(data.members, "vulnerabilities")
         case Object(m) => Then(found, VulnsFindings(m))
         case _ => Then(found, Some([]))
  {
  }

  method VulnerabilityFindings(name: string, vuln: Json) returns (r: Option<seq<Finding>>)
    ensures r == VulnFindings(name, vuln)
  {
    if !vuln.Object? { return None; }
    var ids, joins := ListVia(ViaList(vuln.members));
    if !joins { return None; }
    r := Some([]);
    for i := 0 to |ids|
      invariant r == Some(Named(name, Get(vuln.members, "severity"), ids[..i]))
    {
      r := Some(r.value + [Finding(Str(name), Get(vuln.members, "severity"), ids[i])]);
      assert r.value == Named(name, Get(vuln.members, "severity"), ids[..i + 1]);
    }
    assert ids[..|ids|] == ids;
  }

  // ----- What an object of `vulnerabilities` yields -----

  lemma {:induction false} ViaIdsEmpty(items: seq<Json>)
    ensures ViaIds(items) == [] <==> forall i | 0 <= i < |items| :: ViaItem(items[i]).Some? ==> !Truthy(ViaItem(items[i]).value.0)
  {
    hide ViaItem;
    if items != [] {
      ViaIdsEmpty(items[1..]);
      if ViaIds(items) == [] {
        forall i | 0 <= i < |items| ensures ViaItem(items[i]).Some? ==> !Truthy(ViaItem(items[i]).value.0) {
          if i > 0 { assert items[i] == items[1..][i - 1]; }
        }
      } else if ViaIds(items[1..]) != [] {
        var i :| 0 <= i < |items| - 1 && ViaItem(items[1..][i]).Some? && Truthy(ViaItem(items[1..][i]).value.0);
        assert items[1..][i] == items[i + 1];
      }
    }
  }

  // A vulnerability, however severe, is silent exactly when nothing in `via` has an id.
  lemma SilentExactlyWhen(name: string, v: seq<(string, Json)>)
    requires TitlesJoin(ViaList(v))
    ensures VulnFindings(name, Object(v)) == Some([])
       <==> forall i | 0 <= i < |ViaList(v)| ::
              ViaItem(ViaList(v)[i]).Some? ==> !Truthy(ViaItem(ViaList(v)[i]).value.0)
  {
    hide ViaItem; hide ViaList; hide TitlesJoin;
    ViaIdsEmpty(ViaList(v));
  }

  // ----- Values and members -----

  // What Python takes for false.
  lemma TruthyExactlyWhen(v: Json)
    ensures Truthy(v)
       <==> v != Null && v != Bool(false) && v != Number(0) && v != Str("") && v != List([]) && v != Object([])
  {
  }

  // A member is found under its name, and a name that is not there gives None.
  lemma {:induction false} GetFinds(members: seq<(string, Json)>, name: string)
    ensures forall i | 0 <= i < |members| && members[i].0 == name && (forall j | 0 <= j < i :: members[j].0 != name) ::
              Get(members, name) == members[i].1
    ensures (forall i | 0 <= i < |members| :: members[i].0 != name) ==> Get(members, name) == Null
  {
    if members != [] {
      var rest := members[1..];
      GetFinds(rest, name);
      assert forall i | 0 <= i < |rest| :: rest[i] == members[i + 1];
      forall i | 0 <= i < |members| && members[i].0 == name && (forall j | 0 <= j < i :: members[j].0 != name)
        ensures Get(members, name) == members[i].1
      {
        if i > 0 { assert members[0].0 != name && rest[i - 1] == members[i]; }
      }
    }
  }

  // The CVE of an advisory is the first of its list; a text gives its first character.
  lemma FirstCveIs(cves: Json)
    ensures cves.List? && cves.items != [] ==> FirstCve(cves) == Some(cves.items[0])
    ensures cves.Str? && cves.s != "" ==> FirstCve(cves) == Some(Str(cves.s[..1]))
    ensures !Truthy(cves) ==> FirstCve(cves) == Some(Null)
  {
    if cves.Str? && cves.s != "" { assert [cves.s[0]] == cves.s[..1]; }
  }

  // ----- What a document yields, finding by finding -----

  // v is the first candidate that has a value, or the last if none has.
  ghost predicate Chosen(cs: seq<Json>, v: Json) {
    && cs != []
    && (forall k: nat | FirstTruthy(cs, k) :: v == cs[k])
    && ((forall k | 0 <= k < |cs| :: !Truthy(cs[k])) ==> v == cs[|cs| - 1])
  }

  lemma OrAllChosen(cs: seq<Json>)
    requires cs != []
    ensures Chosen(cs, OrAll(cs))
  {
    hide Truthy; hide OrAll; hide FirstTruthy;
    OrAllIsFirst(cs);
  }

  // An item of `via` has an id: a text is its own, and an object has the first with a value of
  // its GHSA id, URL, source, title and name.
  ghost predicate HasId(item: Json, id: Json) {
    && Truthy(id)
    && match item
       case Str(_) => id == item
       case Object(a) =>
         Chosen([Get(a, "github_advisory_id"), Get(a, "url"), Get(a, "source"), Get(a, "title"), Get(a, "name")], id)
       case _ => false
  }

  // The ids of the items that have one, in order.
  ghost predicate IdsOf(items: seq<Json>, ids: seq<Json>) {
    if items == [] then ids == []
    else if exists id :: HasId(items[0], id) then ids != [] && HasId(items[0], ids[0]) && IdsOf(items[1..], ids[1..])
    else IdsOf(items[1..], ids)
  }

  // One finding for each id of `via`, a text standing for a list of itself, under the name and
  // the severity of the vulnerability.
  ghost predicate VulnerabilityYields(name: string, vuln: Json, fs: seq<Finding>) {
    vuln.Object? &&
    exists ids: seq<Json> ::
      && ViaYields(Get(vuln.members, "via"), ids)
      && |ids| == |fs| && (forall i | 0 <= i < |fs| :: fs[i] == Finding(Str(name), Get(vuln.members, "severity"), ids[i]))
  }

  ghost predicate ViaYields(via: Json, ids: seq<Json>) {
    match via
    case List(items) => IdsOf(items, ids)
    case Str(s) => IdsOf([Str(s)], ids)
    case _ => ids == []
  }

  // One finding with the module name or the name, the severity, and the picked id.
  ghost predicate AdvisoryYields(show: Json -> string, advisory: Json, f: Finding) {
    advisory.Object? &&
    var a := advisory.members;
    && Chosen([Get(a, "module_name"), Get(a, "name")], f.name)
    && f.severity == Get(a, "severity")
    && Chosen(Candidates(show, a, FirstCve(Get(a, "cves")).GetOr(Null)), f.id)
  }

  ghost predicate VulnerabilitiesYield(m: seq<(string, Json)>, fs: seq<Finding>) {
    if m == [] then fs == []
    else exists n: nat :: n <= |fs| && VulnerabilityYields(m[0].0, m[0].1, fs[..n]) && VulnerabilitiesYield(m[1..], fs[n..])
  }

  ghost predicate AdvisoriesYield(show: Json -> string, m: seq<(string, Json)>, fs: seq<Finding>) {
    |fs| == |m| && forall i | 0 <= i < |m| :: AdvisoryYields(show, m[i].1, fs[i])
  }

  // The findings of the advisories, then those of the vulnerabilities.
  ghost predicate DocumentYields(show: Json -> string, data: Json, fs: seq<Finding>) {
    data.Object? &&
    var a, v := Get(data.members, "advisories"), Get(data.members, "vulnerabilities");
    exists n: nat ::
      && n <= |fs|
      && (if a.Object? then AdvisoriesYield(show, a.members, fs[..n]) else fs[..n] == [])
      && (if v.Object? then VulnerabilitiesYield(v.members, fs[n..]) else fs[n..] == [])
  }

  lemma FiveOrs(cs: seq<Json>)
    requires |cs| == 5
    ensures OrAll(cs) == Or(cs[0], Or(cs[1], Or(cs[2], Or(cs[3], cs[4]))))
  {
    hide Or;
    var c1 := cs[1..];
    FourOrs(c1);
    assert OrAll(cs) == Or(cs[0], OrAll(c1));
  }

  lemma ViaItemHasId(item: Json, id: Json)
    ensures HasId(item, id) <==> ViaItem(item).Some? && Truthy(id) && id == ViaItem(item).value.0
  {
    hide Get; hide Truthy; hide OrAll; hide FirstTruthy;
    if item.Object? {
      var a := item.members;
      var cs := [Get(a, "github_advisory_id"), Get(a, "url"), Get(a, "source"), Get(a, "title"), Get(a, "name")];
      FiveOrs(cs);
      OrAllChosen(cs);
      OrAllIsFirst(cs);
      if Truthy(id) && Chosen(cs, id) { ChosenIs(cs, id); }
    }
  }

  // Only one value can be chosen.
  lemma ChosenIs(cs: seq<Json>, v: Json)
    requires Chosen(cs, v)
    ensures v == OrAll(cs)
  {
    hide Truthy; hide OrAll;
    OrAllIsFirst(cs);
    if k :| 0 <= k < |cs| && Truthy(cs[k]) {
      var j := SomeFirst(cs, k);
    }
  }

  lemma {:induction false} ViaIdsAre(items: seq<Json>)
    ensures IdsOf(items, ViaIds(items))
  {
    hide ViaItem; hide HasId; hide Truthy;
    if items != [] {
      ViaIdsAre(items[1..]);
      var v, ids := ViaItem(items[0]), ViaIds(items);
      forall id ensures HasId(items[0], id) <==> v.Some? && Truthy(id) && id == v.value.0 { ViaItemHasId(items[0], id); }
      if v.Some? && Truthy(v.value.0) {
        assert HasId(items[0], v.value.0);
        assert ids[0] == v.value.0 && ids[1..] == ViaIds(items[1..]);
      } else {
        assert ids == ViaIds(items[1..]);
      }
    }
  }

  lemma VulnFindingsYield(name: string, vuln: Json)
    requires VulnFindings(name, vuln).Some?
    ensures VulnerabilityYields(name, vuln, VulnFindings(name, vuln).value)
  {
    hide TitlesJoin; hide ViaIds; hide IdsOf; hide Get;
    var ids := ViaIds(ViaList(vuln.members));
    ViaIdsAre(ViaList(vuln.members));
    if ViaList(vuln.members) == [] { NoIds(ids); }
  }

  lemma NoIds(ids: seq<Json>)
    requires IdsOf([], ids)
    ensures ids == []
  {
  }

  lemma AdvisoryFindingYields(show: Json -> string, advisory: Json)
    requires AdvisoryFinding(show, advisory).Some?
    ensures AdvisoryYields(show, advisory, AdvisoryFinding(show, advisory).value)
  {
    hide Get; hide Truthy; hide FirstCve; hide OrAll; hide Chosen; hide Candidates;
    var a := advisory.members;
    var names := [Get(a, "module_name"), Get(a, "name")];
    OrAllChosen(names);
    assert names[1..] == [Get(a, "name")];
    assert OrAll(names) == Or(names[0], names[1]) by { TwoOrs(names); }
    PickedIsChosen(show, a);
  }

  lemma TwoOrs(cs: seq<Json>)
    requires |cs| == 2
    ensures OrAll(cs) == Or(cs[0], cs[1])
  {
  }

  lemma PickedIsChosen(show: Json -> string, a: seq<(string, Json)>)
    requires PickAdvisoryId(show, a).Some?
    ensures Chosen(Candidates(show, a, FirstCve(Get(a, "cves")).GetOr(Null)), PickAdvisoryId(show, a).value)
  {
    hide Get; hide FirstCve; hide Truthy; hide OrAll; hide FirstTruthy;
    var cs := Candidates(show, a, FirstCve(Get(a, "cves")).GetOr(Null));
    SevenOrs(cs);
    OrAllChosen(cs);
    PicksFirstTruthy(show, a);
    if FirstCve(Get(a, "cves")).None? {
      assert Truthy(cs[0]) || Truthy(cs[1]);
    }
  }

  lemma {:induction false} VulnsFindingsYield(m: seq<(string, Json)>)
    requires VulnsFindings(m).Some?
    ensures VulnerabilitiesYield(m, VulnsFindings(m).value)
  {
    hide VulnFindings; hide VulnerabilityYields;
    if m != [] {
      var first, rest := VulnFindings(m[0].0, m[0].1).value, VulnsFindings(m[1..]).value;
      VulnFindingsYield(m[0].0, m[0].1);
      VulnsFindingsYield(m[1..]);
      var fs := VulnsFindings(m).value;
      assert fs[..|first|] == first && fs[|first|..] == rest;
    }
  }

  // The generator yields exactly what the document says, in its order.
  lemma FindingsYield(show: Json -> string, data: Json)
    requires Findings(show, data).Some?
    ensures DocumentYields(show, data, Findings(show, data).value)
  {
    hide Get; hide AdvisoryFindings; hide VulnsFindings; hide AdvisoryFinding; hide AdvisoryYields; hide VulnerabilitiesYield;
    var a, v := Get(data.members, "advisories"), Get(data.members, "vulnerabilities");
    var fs := Findings(show, data).value;
    var n := if a.Object? then |AdvisoryFindings(show, a.members).value| else 0;
    if a.Object? {
      AdvisoriesReadable(show, a.members);
      forall i | 0 <= i < |a.members| ensures AdvisoryYields(show, a.members[i].1, AdvisoryFindings(show, a.members).value[i]) {
        AdvisoryFindingYields(show, a.members[i].1);
      }
      assert fs[..n] == AdvisoryFindings(show, a.members).value;
    } else {
      assert fs[..n] == [];
    }
    if v.Object? {
      VulnsFindingsYield(v.members);
      assert fs[n..] == VulnsFindings(v.members).value;
    } else {
      assert fs[n..] == [];
    }
  }
}
