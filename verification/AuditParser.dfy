// parse_exceptions: the line by line reader of the exception list.

module AuditParser {
  import opened Wrappers
  import opened AuditText

  type Record = map<string, string>

  // The exceptions so far and the one being read.
  datatype Parser = Parser(done: seq<Record>, current: Option<Record>)

  predicate Skipped(line: string) {
    line == "" || "#" <= line || "version:" <= line || "exceptions:" <= line
  }

  predicate IsItem(line: string) {
    "- " <= line
  }

  function Flush(p: Parser): (done: seq<Record>) {
    if p.current.Some? && p.current.value != map[] then p.done + [p.current.value] else p.done
  }

  // One line; None when split_kv raises.
  function Step(p: Parser, raw: string): (r: Option<Parser>) {
    var line := Strip(raw);
    if Skipped(line) then Some(p)
    else if IsItem(line) then
      var rest := Strip(line[2..]);
      if rest == "" then Some(Parser(Flush(p), Some(map[])))
      else
        match SplitKv(rest)
        case None => None
        case Some(kv) => Some(Parser(Flush(p), Some(map[kv.0 := kv.1])))
    else if p.current.Some? && ':' in line then
      match SplitKv(line)
      case None => None
      case Some(kv) => Some(p.(current := Some(p.current.value[kv.0 := kv.1])))
    else Some(p)
  }

  function ParseFrom(p: Parser, lines: seq<string>): (r: Option<seq<Record>>)
    decreases |lines|
  {
    if lines == [] then Some(Flush(p))
    else
      match Step(p, lines[0])
      case None => None
      case Some(p') => ParseFrom(p', lines[1..])
  }

  function Parse(lines: seq<string>): (r: Option<seq<Record>>) {
    ParseFrom(Parser([], None), lines)
  }

  method ParseExceptions(lines: seq<string>) returns (r: Option<seq<Record>>)
    ensures r == Parse(lines)
  {
    hide Strip; hide SplitKv;
    var exceptions: seq<Record>, current: Option<Record> := [], None;
    for i := 0 to |lines|
      invariant Parse(lines) == ParseFrom(Parser(exceptions, current), lines[i..])
    {
      assert lines[i..][1..] == lines[i + 1..];
      var line := Strip(lines[i]);
      if line == "" || "#" <= line { continue; }
      if "version:" <= line || "exceptions:" <= line { continue; }
      if "- " <= line {
        if current.Some? && current.value != map[] {
          exceptions := exceptions + [current.value];
        }
        current := Some(map[]);
        line := Strip(line[2..]);
        if line != "" {
          var kv := SplitKv(line);
          if kv.None? { return None; }
          current := Some(current.value[kv.value.0 := kv.value.1]);
        }
        continue;
      }
      if current.Some? && ':' in line {
        var kv := SplitKv(line);
        if kv.None? { return None; }
        current := Some(current.value[kv.value.0 := kv.value.1]);
      }
    }
    if current.Some? && current.value != map[] {
      exceptions := exceptions + [current.value];
    }
    r := Some(exceptions);
  }

  // ----- The records of a list -----

  function Items(lines: seq<string>): (n: nat) {
    if lines == [] then 0 else (if IsItem(Strip(lines[0])) then 1 else 0) + Items(lines[1..])
  }

  // An item line that makes split_kv raise.
  predicate Bare(raw: string) {
    var line := Strip(raw);
    IsItem(line) && ':' !in line
  }

  ghost predicate Sound(p: Parser) {
    (p.current.Some? ==> p.current.value != map[]) && forall j | 0 <= j < |p.done| :: p.done[j] != map[]
  }

  // An item line always has text after its dash, so no item is ever left empty.
  lemma ItemHasText(raw: string)
    requires IsItem(Strip(raw))
    ensures Strip(Strip(raw)[2..]) != ""
    ensures ':' in Strip(Strip(raw)[2..]) <==> ':' in Strip(raw)
  {
    hide Strip;
    var line := Strip(raw);
    TextAfterDash(line);
  }

  lemma TextAfterDash(line: string)
    requires IsItem(line) && Trimmed(line)
    ensures Strip(line[2..]) != ""
    ensures ':' in Strip(line[2..]) <==> ':' in line
  {
    hide StripLeft; hide StripRight;
    var s := line[2..];
    assert line == "- " + s;
    assert |s| > 0 && !IsSpace(s[|s| - 1]);
    SameColons(s);
  }

  lemma SameColons(s: string)
    requires s != "" && !IsSpace(s[|s| - 1])
    ensures Strip(s) != ""
    ensures ':' in Strip(s) <==> ':' in s
  {
    hide StripLeft;
    var l := StripLeft(s);
    var a := s[..|s| - |l|];
    assert s == a + l;
    assert !Blank(s);
    assert ':' !in a;
  }

  lemma ItemIsNotSkipped(line: string)
    ensures IsItem(line) ==> !Skipped(line)
  {
    if IsItem(line) { assert line[0] == '-'; }
  }

  lemma SoundStep(p: Parser, raw: string)
    requires Sound(p)
    ensures Step(p, raw).None? <==> Bare(raw)
    ensures
      Step(p, raw).Some? ==>
        var q := Step(p, raw).value;
        Sound(q) && |Flush(q)| == |Flush(p)| + if IsItem(Strip(raw)) then 1 else 0
  {
    hide Strip; hide SplitKv; hide Skipped;
    ItemIsNotSkipped(Strip(raw));
    if IsItem(Strip(raw)) {
      ItemHasText(raw);
      if !Bare(raw) {
        var kv := SplitKv(Strip(Strip(raw)[2..])).value;
        assert kv.0 in map[kv.0 := kv.1];
      }
    } else if Step(p, raw).Some? && Step(p, raw).value != p {
      var kv := SplitKv(Strip(raw)).value;
      assert kv.0 in p.current.value[kv.0 := kv.1];
    }
  }

  lemma {:induction false} ParsedFrom(p: Parser, lines: seq<string>)
    requires Sound(p)
    ensures ParseFrom(p, lines).None? <==> exists i :: 0 <= i < |lines| && Bare(lines[i])
    ensures
      ParseFrom(p, lines).Some? ==>
        var records := ParseFrom(p, lines).value;
        |records| == |Flush(p)| + Items(lines) && forall j | 0 <= j < |records| :: records[j] != map[]
    decreases |lines|
  {
    hide Bare; hide Step; hide IsItem; hide Strip;
    if lines != [] {
      SoundStep(p, lines[0]);
      if Step(p, lines[0]).Some? {
        ParsedFrom(Step(p, lines[0]).value, lines[1..]);
        if i :| 0 <= i < |lines| && Bare(lines[i]) { assert Bare(lines[1..][i - 1]); }
        if i :| 0 <= i < |lines| - 1 && Bare(lines[1..][i]) { assert Bare(lines[i + 1]); }
      }
    }
  }

  // Parsing raises exactly when some item line has no colon. Otherwise there is one record
  // for each item line, and none is empty.
  lemma OneRecordPerItem(lines: seq<string>)
    ensures Parse(lines).None? <==> exists i :: 0 <= i < |lines| && Bare(lines[i])
    ensures Parse(lines).Some? ==> |Parse(lines).value| == Items(lines)
    ensures Parse(lines).Some? ==> forall j | 0 <= j < |Parse(lines).value| :: Parse(lines).value[j] != map[]
  {
    ParsedFrom(Parser([], None), lines);
  }

  // ----- Rendering and reading back -----

  // How a line is written: white space before and after it, which values stand as they are,
  // and the quote around the others.
  datatype Style = Style(before: string, after: string, quote: char, plain: string -> bool)

  // Values that stand as they are have text at both ends, which are not one kind of quote.
  ghost predicate StyleOk(y: Style) {
    && Blank(y.before) && Blank(y.after) && IsQuote(y.quote)
    && forall v | y.plain(v) :: v != "" && Trimmed(v) && !Quoted(v)
  }

  type Field = (string, string)

  function KeyValue(f: Field, y: Style): string {
    if y.plain(f.1) then f.0 + ": " + f.1 else f.0 + ": " + [y.quote] + f.1 + [y.quote]
  }

  function FieldLine(f: Field, y: Style): string {
    y.before + KeyValue(f, y) + y.after
  }

  function ItemLine(f: Field, y: Style): string {
    y.before + "- " + KeyValue(f, y) + y.after
  }

  function FieldLines(fs: seq<Field>, y: Style): seq<string> {
    if fs == [] then [] else [FieldLine(fs[0], y)] + FieldLines(fs[1..], y)
  }

  function Render(records: seq<seq<Field>>, y: Style): seq<string>
    requires forall j | 0 <= j < |records| :: records[j] != []
  {
    if records == [] then []
    else [ItemLine(records[0][0], y)] + FieldLines(records[0][1..], y) + Render(records[1..], y)
  }

  // The dict of a list of fields: a later field replaces an earlier one with its key.
  function Dict(base: Record, fs: seq<Field>): Record
    decreases |fs|
  {
    if fs == [] then base else Dict(base[fs[0].0 := fs[0].1], fs[1..])
  }

  function Dicts(records: seq<seq<Field>>): seq<Record> {
    if records == [] then [] else [Dict(map[], records[0])] + Dicts(records[1..])
  }

  predicate CleanKey(key: string) {
    ':' !in key && Trimmed(key)
  }

  // A key that may also stand at the start of a line.
  predicate CleanStart(key: string) {
    CleanKey(key) && !("#" <= key) && !("- " <= key) && key != "version" && key != "exceptions"
  }

  predicate Clean(fs: seq<Field>) {
    forall k | 0 <= k < |fs| :: if k == 0 then CleanKey(fs[k].0) else CleanStart(fs[k].0)
  }

  lemma KeyValueTrimmed(f: Field, y: Style)
    requires CleanKey(f.0) && StyleOk(y)
    ensures Trimmed(KeyValue(f, y)) && KeyValue(f, y) != ""
    ensures SplitKv(KeyValue(f, y)) == Some(f)
    ensures ':' in KeyValue(f, y)
  {
    hide SplitKv;
    SplitQuoted(f.0, f.1, y.quote);
    SplitPlain(f.0, f.1);
    var s := KeyValue(f, y);
    assert s[|f.0|] == ':';
    assert s[|s| - 1] == if y.plain(f.1) then f.1[|f.1| - 1] else y.quote;
    assert s[0] == if f.0 == "" then ':' else f.0[0];
  }

  // A key without colons starts a line that begins with "word:" only if it is that word.
  lemma NotAHeader(key: string, tail: string, word: string)
    requires ':' !in key && ':' !in word
    ensures word + ":" <= key + ":" + tail ==> key == word
  {
    if word + ":" <= key + ":" + tail {
      var s := key + ":" + tail;
      assert s == word + ":" + s[|word| + 1..];
      ColonAfter(key, tail);
      ColonAfter(word, s[|word| + 1..]);
      assert s[..|key|] == key && s[..|word|] == word;
    }
  }

  lemma NotSkipped(f: Field, y: Style)
    requires CleanStart(f.0)
    ensures !Skipped(KeyValue(f, y)) && !IsItem(KeyValue(f, y))
  {
    var tail := " " + if y.plain(f.1) then f.1 else [y.quote] + f.1 + [y.quote];
    var s := KeyValue(f, y);
    assert s == f.0 + ":" + tail;
    NotAHeader(f.0, tail, "version");
    NotAHeader(f.0, tail, "exceptions");
    assert "version" + ":" == "version:" && "exceptions" + ":" == "exceptions:";
    assert s[0] == if f.0 == "" then ':' else f.0[0];
    assert s[1] == if f.0 == "" then ' ' else if |f.0| == 1 then ':' else f.0[1];
  }

  lemma ReadField(p: Parser, f: Field, y: Style)
    requires p.current.Some? && CleanStart(f.0) && StyleOk(y)
    ensures Step(p, FieldLine(f, y)) == Some(p.(current := Some(p.current.value[f.0 := f.1])))
  {
    hide Strip; hide SplitKv; hide KeyValue; hide Skipped; hide IsItem; hide Trimmed;
    KeyValueTrimmed(f, y);
    NotSkipped(f, y);
    StripPadded(y.before, KeyValue(f, y), y.after);
  }

  lemma ReadItem(p: Parser, f: Field, y: Style)
    requires CleanKey(f.0) && StyleOk(y)
    ensures Step(p, ItemLine(f, y)) == Some(Parser(Flush(p), Some(map[f.0 := f.1])))
  {
    hide Strip; hide SplitKv; hide KeyValue;
    var kv := KeyValue(f, y);
    KeyValueTrimmed(f, y);
    var line := "- " + kv;
    assert line[|line| - 1] == kv[|kv| - 1];
    assert ItemLine(f, y) == y.before + line + y.after;
    StripPadded(y.before, line, y.after);
    assert !Skipped(line) by { assert line[0] == '-'; }
    assert line[2..] == kv;
    StripTrimmed(kv);
  }

  lemma {:induction false} ReadFields(p: Parser, fs: seq<Field>, y: Style, rest: seq<string>)
    requires p.current.Some? && StyleOk(y) && forall k | 0 <= k < |fs| :: CleanStart(fs[k].0)
    ensures ParseFrom(p, FieldLines(fs, y) + rest) == ParseFrom(p.(current := Some(Dict(p.current.value, fs))), rest)
    decreases |fs|
  {
    hide Step; hide FieldLine; hide CleanStart; hide StyleOk;
    if fs == [] {
      assert FieldLines(fs, y) + rest == rest;
    } else {
      var lines := FieldLines(fs, y) + rest;
      assert lines[0] == FieldLine(fs[0], y) && lines[1..] == FieldLines(fs[1..], y) + rest;
      ReadField(p, fs[0], y);
      ReadFields(p.(current := Some(p.current.value[fs[0].0 := fs[0].1])), fs[1..], y, rest);
    }
  }

  lemma {:induction false} DictGrows(base: Record, fs: seq<Field>)
    requires base != map[]
    ensures Dict(base, fs) != map[]
    decreases |fs|
  {
    if fs != [] {
      var b := base[fs[0].0 := fs[0].1];
      assert fs[0].0 in b;
      DictGrows(b, fs[1..]);
    }
  }

  lemma {:induction false} ReadRecords(p: Parser, records: seq<seq<Field>>, y: Style)
    requires StyleOk(y) && forall j | 0 <= j < |records| :: records[j] != [] && Clean(records[j])
    ensures ParseFrom(p, Render(records, y)) == Some(Flush(p) + Dicts(records))
    decreases |records|
  {
    hide Step; hide ItemLine; hide StyleOk; hide FieldLines;
    if records == [] {
      assert Flush(p) + Dicts(records) == Flush(p);
    } else {
      var r := records[0];
      var rest := Render(records[1..], y);
      var lines := Render(records, y);
      assert lines[0] == ItemLine(r[0], y) && lines[1..] == FieldLines(r[1..], y) + rest;
      ReadItem(p, r[0], y);
      var p1 := Parser(Flush(p), Some(map[r[0].0 := r[0].1]));
      ReadFields(p1, r[1..], y, rest);
      var d := Dict(map[r[0].0 := r[0].1], r[1..]);
      assert d == Dict(map[], r);
      assert r[0].0 in map[r[0].0 := r[0].1];
      DictGrows(map[r[0].0 := r[0].1], r[1..]);
      ReadRecords(p1.(current := Some(d)), records[1..], y);
      assert Flush(p) + [d] + Dicts(records[1..]) == Flush(p) + Dicts(records);
    }
  }

  // Nothing in the records or the style breaks a line.
  predicate Unbroken(records: seq<seq<Field>>, y: Style) {
    && NoBreak(y.before) && NoBreak(y.after)
    && forall j, k | 0 <= j < |records| && 0 <= k < |records[j]| :: NoBreak(records[j][k].0) && NoBreak(records[j][k].1)
  }

  // The records as a file.
  function Written(records: seq<seq<Field>>, y: Style): (text: string)
    requires forall j | 0 <= j < |records| :: records[j] != []
    ensures Ended(text)
  {
    FileOf(Render(records, y))
  }

  function Terminated(y: Style): Style {
    y.(after := y.after + "\n")
  }

  predicate NoneBroken(lines: seq<string>) {
    forall k | 0 <= k < |lines| :: NoBreak(lines[k])
  }

  lemma NoneBrokenConcat(a: seq<string>, b: seq<string>)
    requires NoneBroken(a) && NoneBroken(b)
    ensures NoneBroken(a + b)
  {
    hide NoBreak;
  }

  lemma {:induction false} FieldLinesUnbroken(fs: seq<Field>, y: Style)
    requires NoBreak(y.before) && NoBreak(y.after) && IsQuote(y.quote)
    requires forall k | 0 <= k < |fs| :: NoBreak(fs[k].0) && NoBreak(fs[k].1)
    ensures NoneBroken(FieldLines(fs, y))
    ensures Broken(FieldLines(fs, y)) == FieldLines(fs, Terminated(y))
  {
    hide NoBreak; hide Broken; hide FieldLine; hide Terminated;
    if fs == [] {
      assert Broken([]) == [];
    } else {
      LineUnbroken(fs[0], y);
      FieldLinesUnbroken(fs[1..], y);
      assert Broken([FieldLine(fs[0], y)]) == [FieldLine(fs[0], y) + "\n"];
      NoneBrokenConcat([FieldLine(fs[0], y)], FieldLines(fs[1..], y));
      BrokenConcat([FieldLine(fs[0], y)], FieldLines(fs[1..], y));
    }
  }

  lemma LineUnbroken(f: Field, y: Style)
    requires NoBreak(y.before) && NoBreak(y.after) && IsQuote(y.quote) && NoBreak(f.0) && NoBreak(f.1)
    ensures NoBreak(FieldLine(f, y)) && NoBreak(ItemLine(f, y))
    ensures FieldLine(f, y) + "\n" == FieldLine(f, Terminated(y)) && ItemLine(f, y) + "\n" == ItemLine(f, Terminated(y))
  {
  }

  lemma BrokenConcat(a: seq<string>, b: seq<string>)
    ensures Broken(a + b) == Broken(a) + Broken(b)
  {
  }

  lemma {:induction false} RenderUnbroken(records: seq<seq<Field>>, y: Style)
    requires IsQuote(y.quote) && Unbroken(records, y) && forall j | 0 <= j < |records| :: records[j] != []
    ensures NoneBroken(Render(records, y))
    ensures Broken(Render(records, y)) == Render(records, Terminated(y))
  {
    hide NoBreak; hide ItemLine; hide FieldLines; hide Broken; hide Terminated; hide NoneBroken;
    if records == [] {
      NothingBroken();
    } else {
      var r := records[0];
      var first, fields, rest := ItemLine(r[0], y), FieldLines(r[1..], y), Render(records[1..], y);
      LineUnbroken(r[0], y);
      FieldLinesUnbroken(r[1..], y);
      RenderUnbroken(records[1..], y);
      OneBroken(first);
      NoneBrokenConcat([first], fields);
      NoneBrokenConcat([first] + fields, rest);
      BrokenConcat([first] + fields, rest);
      BrokenConcat([first], fields);
    }
  }

  lemma NothingBroken()
    ensures NoneBroken([]) && Broken([]) == []
  {
  }

  lemma OneBroken(line: string)
    requires NoBreak(line)
    ensures NoneBroken([line]) && Broken([line]) == [line + "\n"]
  {
  }

  // The lines of the file are those of the rendered list.
  lemma WrittenLines(records: seq<seq<Field>>, y: Style)
    requires IsQuote(y.quote) && Unbroken(records, y) && forall j | 0 <= j < |records| :: records[j] != []
    ensures Lines(Written(records, y)) == Render(records, Terminated(y))
  {
    hide NoBreak; hide Unbroken; hide Render; hide Lines; hide FileOf;
    RenderUnbroken(records, y);
    LinesOfFile(Render(records, y));
  }

  lemma TerminatedOk(y: Style)
    requires StyleOk(y)
    ensures StyleOk(Terminated(y))
  {
  }

  // Reading back the file of a list of clean records is the identity, whatever the values
  // hold but line breaks.
  lemma RenderThenParse(records: seq<seq<Field>>, y: Style)
    requires StyleOk(y) && forall j | 0 <= j < |records| :: records[j] != [] && Clean(records[j])
    requires Unbroken(records, y)
    ensures Parse(Lines(Written(records, y))) == Some(Dicts(records))
  {
    hide ParseFrom; hide Render; hide Dicts; hide Clean; hide Unbroken; hide Lines; hide Written; hide StyleOk;
    assert IsQuote(y.quote) by { StyleQuotes(y); }
    WrittenLines(records, y);
    TerminatedOk(y);
    ReadRecords(Parser([], None), records, Terminated(y));
    assert Flush(Parser([], None)) + Dicts(records) == Dicts(records);
  }

  lemma StyleQuotes(y: Style)
    requires StyleOk(y)
    ensures IsQuote(y.quote)
  {
  }

  // ----- No break is ever read -----

  // A line of a file: no break but one at its end.
  predicate IsLine(s: string) {
    NoBreak(s) || (s != "" && s[|s| - 1] == '\n' && NoBreak(s[..|s| - 1]))
  }

  lemma {:induction false} LinesAreLines(text: string)
    ensures forall k | 0 <= k < |Lines(text)| :: IsLine(Lines(text)[k])
    decreases |text|
  {
    if text != "" && Break(text) < |text| {
      hide Break; hide AfterBreak;
      var i := Break(text);
      var line := text[..i] + "\n";
      assert line[..|line| - 1] == text[..i];
      LinesStep(text);
      LinesAreLines(text[AfterBreak(text, i)..]);
    } else if text != "" {
      assert text[..|text|] == text;
    }
  }

  lemma PartUnbroken(s: string, i: nat, j: nat)
    requires NoBreak(s) && i <= j <= |s|
    ensures NoBreak(s[i..j])
  {
  }

  lemma StripUnbroken(s: string)
    requires NoBreak(s)
    ensures NoBreak(Strip(s))
  {
    hide NoBreak;
    var l := StripLeft(s);
    PartUnbroken(s, |s| - |l|, |s|);
    assert s[|s| - |l|..|s|] == l;
    var r := StripRight(l);
    PartUnbroken(l, 0, |r|);
    assert l[0..|r|] == r;
  }

  lemma StripDropsBreak(s: string)
    requires s != "" && s[|s| - 1] == '\n' && NoBreak(s[..|s| - 1])
    ensures NoBreak(Strip(s))
  {
    hide NoBreak;
    var l := StripLeft(s);
    if l == "" {
      assert s[..|s| - 1][0..0] == "";
      PartUnbroken(s[..|s| - 1], 0, 0);
    } else {
      var r := StripRight(l);
      assert |r| < |l|;
      var i := |s| - |l|;
      PartUnbroken(s[..|s| - 1], i, i + |r|);
      assert s[..|s| - 1][i..i + |r|] == l[..|r|] == r;
    }
  }

  lemma SplitUnbroken(line: string)
    requires NoBreak(line) && ':' in line
    ensures NoBreak(SplitKv(line).value.0) && NoBreak(SplitKv(line).value.1)
  {
    hide NoBreak; hide Strip;
    var i := Colon(line);
    PartUnbroken(line, 0, i);
    PartUnbroken(line, i + 1, |line|);
    assert line[0..i] == line[..i] && line[i + 1..|line|] == line[i + 1..];
    StripUnbroken(line[..i]);
    StripUnbroken(line[i + 1..]);
    var value := Strip(line[i + 1..]);
    if |value| > 1 { PartUnbroken(value, 1, |value| - 1); }
    PartUnbroken(value, 0, 0);
    assert value[0..0] == "";
  }

  ghost predicate UnbrokenRecord(r: Record) {
    forall k | k in r :: NoBreak(k) && NoBreak(r[k])
  }

  ghost predicate UnbrokenParser(p: Parser) {
    && (p.current.Some? ==> UnbrokenRecord(p.current.value))
    && forall j | 0 <= j < |p.done| :: UnbrokenRecord(p.done[j])
  }

  lemma UnbrokenStep(p: Parser, raw: string)
    requires UnbrokenParser(p) && IsLine(raw)
    ensures Step(p, raw).Some? ==> UnbrokenParser(Step(p, raw).value)
  {
    hide NoBreak; hide Strip; hide SplitKv;
    var line := Strip(raw);
    if NoBreak(raw) { StripUnbroken(raw); } else { StripDropsBreak(raw); }
    if !Skipped(line) && IsItem(line) {
      PartUnbroken(line, 2, |line|);
      assert line[2..|line|] == line[2..];
      StripUnbroken(line[2..]);
      if ':' in Strip(line[2..]) { SplitUnbroken(Strip(line[2..])); }
    } else if !Skipped(line) && p.current.Some? && ':' in line {
      SplitUnbroken(line);
    }
  }

  lemma {:induction false} ParsedUnbroken(p: Parser, lines: seq<string>)
    requires UnbrokenParser(p) && forall k | 0 <= k < |lines| :: IsLine(lines[k])
    ensures
      ParseFrom(p, lines).Some? ==>
        forall j | 0 <= j < |ParseFrom(p, lines).value| :: UnbrokenRecord(ParseFrom(p, lines).value[j])
    decreases |lines|
  {
    hide Step; hide IsLine; hide UnbrokenRecord;
    if lines != [] {
      UnbrokenStep(p, lines[0]);
      if Step(p, lines[0]).Some? { ParsedUnbroken(Step(p, lines[0]).value, lines[1..]); }
    }
  }

  predicate DistinctKeys(fs: seq<Field>) {
    forall i, j | 0 <= i < j < |fs| :: fs[i].0 != fs[j].0
  }

  lemma {:induction false} DictKeeps(base: Record, fs: seq<Field>, key: string)
    requires key in base && forall i | 0 <= i < |fs| :: fs[i].0 != key
    ensures key in Dict(base, fs) && Dict(base, fs)[key] == base[key]
    decreases |fs|
  {
    if fs != [] { DictKeeps(base[fs[0].0 := fs[0].1], fs[1..], key); }
  }

  lemma {:induction false} DictHolds(base: Record, fs: seq<Field>, k: nat)
    requires DistinctKeys(fs) && k < |fs|
    ensures fs[k].0 in Dict(base, fs) && Dict(base, fs)[fs[k].0] == fs[k].1
    decreases |fs|
  {
    var b := base[fs[0].0 := fs[0].1];
    if k == 0 { DictKeeps(b, fs[1..], fs[0].0); } else { DictHolds(b, fs[1..], k - 1); }
  }

  lemma {:induction false} DictsAt(records: seq<seq<Field>>, j: nat)
    requires j < |records|
    ensures j < |Dicts(records)| && Dicts(records)[j] == Dict(map[], records[j])
  {
    if j > 0 { DictsAt(records[1..], j - 1); }
  }

  // For records without repeated keys the round trip through a file succeeds exactly when no
  // key and no value holds a line break.
  lemma RoundTripExactlyWhen(records: seq<seq<Field>>, y: Style)
    requires StyleOk(y) && NoBreak(y.before) && NoBreak(y.after)
    requires forall j | 0 <= j < |records| :: records[j] != [] && Clean(records[j]) && DistinctKeys(records[j])
    ensures Parse(Lines(Written(records, y))) == Some(Dicts(records)) <==> Unbroken(records, y)
  {
    hide StyleOk; hide NoBreak; hide Clean; hide DistinctKeys; hide Dicts; hide Dict; hide ParseFrom; hide Lines; hide Written;
    if Unbroken(records, y) {
      RenderThenParse(records, y);
    } else if Parse(Lines(Written(records, y))) == Some(Dicts(records)) {
      var j, k :| 0 <= j < |records| && 0 <= k < |records[j]| && !(NoBreak(records[j][k].0) && NoBreak(records[j][k].1));
      DictsAt(records, j);
      DictHolds(map[], records[j], k);
      LinesAreLines(Written(records, y));
      ParsedUnbroken(Parser([], None), Lines(Written(records, y)));
      assert false;
    }
  }

  // A line break in a value may start another record: the record a = "x", break, "- b: c" is
  // read as two.
  lemma LineBreakSplitsRecord()
    ensures
      var records, y := [[("a", "x\n- b: c")]], Style("", "", '"', _ => false);
      && StyleOk(y) && Clean(records[0])
      && Parse(Lines(Written(records, y))).Some? && |Parse(Lines(Written(records, y))).value| == 2
  {
    hide Parse; hide Lines; hide Strip; hide Written;
    assert CleanKey("a");
    var one, two := "- a: \"x", "- b: c\"";
    BrokenRecordLines();
    var lines := [one + "\n", two + "\n"];
    TwoItems(one, two);
    assert one[3] == ':' && two[3] == ':';
    OneRecordPerItem(lines);
  }

  lemma BrokenRecordLines()
    ensures Lines(Written([[("a", "x\n- b: c")]], Style("", "", '"', _ => false))) == ["- a: \"x" + "\n", "- b: c\"" + "\n"]
  {
    hide Lines;
    var records: seq<seq<Field>>, y := [[("a", "x\n- b: c")]], Style("", "", '"', _ => false);
    var one, two := "- a: \"x", "- b: c\"";
    assert records[1..] == [] && records[0][1..] == [];
    assert Render(records, y) == [ItemLine(records[0][0], y)];
    assert Render(records, y)[1..] == [];
    assert Written(records, y) == one + "\n" + (two + "\n");
    LinesConcat(one + "\n", two + "\n");
    OneLine(one);
    OneLine(two);
  }

  lemma TwoItems(one: string, two: string)
    requires Trimmed(one) && Trimmed(two) && IsItem(one) && IsItem(two)
    ensures Strip(one + "\n") == one && Strip(two + "\n") == two
    ensures Items([one + "\n", two + "\n"]) == 2
  {
    hide Strip; hide IsItem; hide Trimmed;
    ItemRead(one);
    ItemRead(two);
    var lines := [one + "\n", two + "\n"];
    var rest := lines[1..];
    assert rest == [two + "\n"] && rest[1..] == [];
    assert Items(rest[1..]) == 0;
    assert Items(rest) == 1;
  }

  lemma ItemRead(line: string)
    requires Trimmed(line)
    ensures Strip(line + "\n") == line
  {
    assert "" + line + "\n" == line + "\n";
    StripPadded("", line, "\n");
  }

  // A line that is no item changes nothing either when it has no colon, or when no item came
  // before it.
  lemma OtherLinesDoNotMatter(p: Parser, raw: string)
    requires !IsItem(Strip(raw)) && (':' !in Strip(raw) || p.current.None?)
    ensures Step(p, raw) == Some(p)
  {
    hide Strip; hide SplitKv;
  }

  // Comments, blank lines and headers change nothing, wherever they stand.
  lemma {:induction false} SkippedLinesDoNotMatter(p: Parser, before: seq<string>, raw: string, after: seq<string>)
    requires
      var line := Strip(raw);
      line == "" || line[0] == '#' || "version:" <= line || "exceptions:" <= line
    ensures ParseFrom(p, before + [raw] + after) == ParseFrom(p, before + after)
    decreases |before|
  {
    hide Strip;
    assert Skipped(Strip(raw));
    if before == [] {
      assert ([raw] + after)[1..] == after;
      assert before + [raw] + after == [raw] + after && before + after == after;
    } else {
      assert (before + [raw] + after)[1..] == before[1..] + [raw] + after;
      assert (before + after)[1..] == before[1..] + after;
      if Step(p, before[0]).Some? {
        SkippedLinesDoNotMatter(Step(p, before[0]).value, before[1..], raw, after);
      }
    }
  }
}
