// Python's str.strip, str.startswith and str.split(":", 1), as the audit tool uses them.

module AuditText {
  import opened Wrappers

  // The characters str.strip removes.
  predicate IsSpace(c: char) {
    || '\t' <= c <= '\r' || '\U{1C}' <= c <= ' ' || c == '\U{85}' || c == '\U{A0}' || c == '\U{1680}'
    || '\U{2000}' <= c <= '\U{200A}' || c == '\U{2028}' || c == '\U{2029}' || c == '\U{202F}'
    || c == '\U{205F}' || c == '\U{3000}'
  }

  lemma SpacesAre(c: char)
    ensures IsSpace(c)
       <==> c in {'\t', '\n', '\U{B}', '\U{C}', '\r', '\U{1C}', '\U{1D}', '\U{1E}', '\U{1F}', ' ', '\U{85}', '\U{A0}',
                  '\U{1680}', '\U{2000}', '\U{2001}', '\U{2002}', '\U{2003}', '\U{2004}', '\U{2005}', '\U{2006}',
                  '\U{2007}', '\U{2008}', '\U{2009}', '\U{200A}', '\U{2028}', '\U{2029}', '\U{202F}', '\U{205F}',
                  '\U{3000}'}
  {
  }

  predicate Blank(s: string) {
    forall i | 0 <= i < |s| :: IsSpace(s[i])
  }

  // No white space at either end.
  predicate Trimmed(s: string) {
    s == "" || (!IsSpace(s[0]) && !IsSpace(s[|s| - 1]))
  }

  function StripLeft(s: string): (r: string)
    ensures |r| <= |s| && r == s[|s| - |r|..] && Blank(s[..|s| - |r|])
    ensures r == "" || !IsSpace(r[0])
  {
    if s == "" || !IsSpace(s[0]) then s else StripLeft(s[1..])
  }

  function StripRight(s: string): (r: string)
    ensures |r| <= |s| && r == s[..|r|] && Blank(s[|r|..])
    ensures r == "" || !IsSpace(r[|r| - 1])
  {
    if s == "" || !IsSpace(s[|s| - 1]) then s
    else
      var r := StripRight(s[..|s| - 1]);
      assert s[|r|..] == s[..|s| - 1][|r|..] + [s[|s| - 1]];
      r
  }

  function Strip(s: string): (r: string)
    ensures Trimmed(r)
  {
    StripRight(StripLeft(s))
  }

  lemma {:induction false} StripLeftOf(a: string, s: string)
    requires Blank(a) && (s == "" || !IsSpace(s[0]))
    ensures StripLeft(a + s) == s
  {
    if a == "" {
      assert a + s == s;
    } else {
      assert (a + s)[1..] == a[1..] + s;
      StripLeftOf(a[1..], s);
    }
  }

  lemma {:induction false} StripRightOf(s: string, b: string)
    requires Blank(b) && (s == "" || !IsSpace(s[|s| - 1]))
    ensures StripRight(s + b) == s
  {
    if b == "" {
      assert s + b == s;
    } else {
      assert (s + b)[..|s + b| - 1] == s + b[..|b| - 1];
      StripRightOf(s, b[..|b| - 1]);
    }
  }

  // Strip takes exactly the white space around a trimmed text away.
  lemma StripPadded(a: string, s: string, b: string)
    requires Blank(a) && Blank(b) && Trimmed(s)
    ensures Strip(a + s + b) == s
  {
    if s == "" {
      assert Blank(a + s + b);
      assert a + s + b == (a + s + b) + "";
      StripLeftOf(a + s + b, "");
    } else {
      assert a + s + b == a + (s + b);
      StripLeftOf(a, s + b);
      StripRightOf(s, b);
    }
  }

  lemma StripTrimmed(s: string)
    requires Trimmed(s)
    ensures Strip(s) == s
  {
    assert "" + s + "" == s;
    StripPadded("", s, "");
  }

  // The position of the first colon, or the length.
  function Colon(s: string): (i: nat)
    ensures i <= |s| && ':' !in s[..i]
    ensures i < |s| ==> s[i] == ':'
    ensures i == |s| <==> ':' !in s
  {
    if s == "" || s[0] == ':' then 0
    else
      var i := 1 + Colon(s[1..]);
      assert s[..i] == [s[0]] + s[1..][..i - 1];
      assert s == [s[0]] + s[1..];
      i
  }

  lemma {:induction false} ColonAfter(key: string, tail: string)
    requires ':' !in key
    ensures Colon(key + ":" + tail) == |key|
  {
    if key != "" {
      assert (key + ":" + tail)[1..] == key[1..] + ":" + tail;
      ColonAfter(key[1..], tail);
    }
  }

  // One pair of equal quotes around a value is taken away. A value that is a single quote
  // both starts and ends with it, and becomes empty.
  function Unquote(value: string): (r: string) {
    if ("\"" <= value && value[|value| - 1] == '"') || ("'" <= value && value[|value| - 1] == '\'')
    then if |value| == 1 then "" else value[1..|value| - 1]
    else value
  }

  // split_kv; None is the ValueError of a line without a colon.
  function SplitKv(line: string): (r: Option<(string, string)>)
    ensures r.None? <==> ':' !in line
  {
    var i := Colon(line);
    if i == |line| then None
    else Some((Strip(line[..i]), Unquote(Strip(line[i + 1..]))))
  }

  predicate IsQuote(q: char) {
    q == '"' || q == '\''
  }

  lemma QuotedTrimmed(value: string, q: char)
    requires IsQuote(q)
    ensures Trimmed([q] + value + [q])
    ensures Unquote([q] + value + [q]) == value
  {
  }

  // A key without colons comes back from a line, and so does any quoted value, whatever
  // colons, quotes or white space it holds.
  lemma SplitQuoted(key: string, value: string, q: char)
    requires ':' !in key && Trimmed(key) && IsQuote(q)
    ensures SplitKv(key + ": " + [q] + value + [q]) == Some((key, value))
  {
    hide Strip; hide Colon; hide Trimmed;
    var quoted := [q] + value + [q];
    assert Trimmed(quoted) by { QuotedTrimmed(value, q); }
    var line := key + ": " + quoted;
    assert key + ": " + [q] + value + [q] == line;
    assert line == key + ":" + (" " + quoted);
    ColonAfter(key, " " + quoted);
    assert line[..|key|] == key;
    assert line[|key| + 1..] == " " + quoted + "";
    StripTrimmed(key);
    StripPadded(" ", quoted, "");
    assert quoted[1..|quoted| - 1] == value;
  }

  // A text that starts and ends with one kind of quote.
  predicate Quoted(v: string) {
    v != "" && v[0] == v[|v| - 1] && IsQuote(v[0])
  }

  lemma {:induction false} StripShortens(s: string)
    ensures |Strip(s)| <= |s| && (|Strip(s)| == |s| ==> Strip(s) == s)
    ensures !Trimmed(s) ==> |Strip(s)| < |s|
  {
    if |Strip(s)| == |s| { assert Strip(s) == s; }
  }

  lemma UnquoteShortens(v: string)
    ensures if Quoted(v) then |Unquote(v)| < |v| else Unquote(v) == v
  {
  }

  // A value that is written as it is comes back exactly when it has no white space at its ends
  // and does not both start and end with one kind of quote.
  lemma SplitPlain(key: string, value: string)
    requires ':' !in key && Trimmed(key)
    ensures SplitKv(key + ": " + value) == Some((key, value)) <==> Trimmed(value) && !Quoted(value)
  {
    hide Strip; hide Colon; hide Trimmed; hide Unquote; hide Quoted;
    var line := key + ": " + value;
    assert line == key + ":" + (" " + value);
    ColonAfter(key, " " + value);
    assert line[..|key|] == key;
    assert line[|key| + 1..] == " " + value;
    StripTrimmed(key);
    StripSpace(value);
    var v := Strip(value);
    StripShortens(value);
    UnquoteShortens(v);
    if Trimmed(value) { StripTrimmed(value); }
  }

  lemma StripSpace(s: string)
    ensures Strip(" " + s) == Strip(s)
  {
    hide StripRight;
    var x := " " + s;
    assert x[1..] == s && IsSpace(x[0]);
    assert StripLeft(x) == StripLeft(x[1..]);
  }

  // ----- Lines -----

  predicate NoBreak(s: string) {
    '\n' !in s && '\r' !in s
  }

  // The position of the first line break, or the length.
  function Break(s: string): (i: nat)
    ensures i <= |s| && NoBreak(s[..i])
    ensures i < |s| ==> s[i] == '\n' || s[i] == '\r'
  {
    if s == "" || s[0] == '\n' || s[0] == '\r' then 0
    else
      var i := 1 + Break(s[1..]);
      assert s[..i] == [s[0]] + s[1..][..i - 1];
      i
  }

  // Where the line after a break at i starts; "\r\n" is one break.
  function AfterBreak(s: string, i: nat): (j: nat)
    requires i < |s|
    ensures i < j <= |s|
  {
    if s[i] == '\r' && i + 1 < |s| && s[i + 1] == '\n' then i + 2 else i + 1
  }

  // The lines of a file opened as text, each with "\n" for its break.
  function Lines(text: string): seq<string>
    decreases |text|
  {
    if text == "" then []
    else
      var i := Break(text);
      if i == |text| then [text] else [text[..i] + "\n"] + Lines(text[AfterBreak(text, i)..])
  }

  // The text ends where a line ends.
  predicate Ended(text: string) {
    text == "" || text[|text| - 1] == '\n'
  }

  lemma {:induction false} BreakOf(a: string, b: string)
    requires Break(a) < |a|
    ensures Break(a + b) == Break(a)
  {
    if a[0] != '\n' && a[0] != '\r' {
      assert (a + b)[1..] == a[1..] + b;
      BreakOf(a[1..], b);
    }
  }

  lemma {:induction false} BreakInEnded(a: string)
    requires Ended(a) && a != ""
    ensures Break(a) < |a|
  {
    if a[0] != '\n' && a[0] != '\r' { BreakInEnded(a[1..]); }
  }

  lemma LinesStep(text: string)
    requires Break(text) < |text|
    ensures
      var i := Break(text);
      Lines(text) == [text[..i] + "\n"] + Lines(text[AfterBreak(text, i)..])
  {
  }

  lemma SplitEnded(a: string, b: string, i: nat)
    requires Ended(a) && i < |a|
    ensures AfterBreak(a + b, i) == AfterBreak(a, i)
    ensures (a + b)[..i] == a[..i] && (a + b)[AfterBreak(a, i)..] == a[AfterBreak(a, i)..] + b
    ensures Ended(a[AfterBreak(a, i)..])
  {
  }

  lemma Regroup<T>(x: T, a: seq<T>, b: seq<T>)
    ensures [x] + (a + b) == [x] + a + b
  {
  }

  lemma {:induction false} LinesConcat(a: string, b: string)
    requires Ended(a)
    ensures Lines(a + b) == Lines(a) + Lines(b)
    decreases |a|
  {
    if a == "" {
      assert a + b == b;
    } else {
      hide Lines; hide Break; hide AfterBreak; hide Ended; hide NoBreak;
      BreakInEnded(a);
      BreakOf(a, b);
      var i := Break(a);
      SplitEnded(a, b, i);
      LinesStep(a);
      LinesStep(a + b);
      var rest := a[AfterBreak(a, i)..];
      LinesConcat(rest, b);
      Regroup(a[..i] + "\n", Lines(rest), Lines(b));
    }
  }

  lemma {:induction false} BreakAfter(line: string)
    requires NoBreak(line)
    ensures Break(line + "\n") == |line|
  {
    if line != "" {
      assert (line + "\n")[1..] == line[1..] + "\n";
      BreakAfter(line[1..]);
    }
  }

  // A line may also end with "\r\n", which is one break, or with "\r".
  lemma OtherBreaks(line: string, rest: string)
    requires NoBreak(line)
    ensures Lines(line + "\r\n" + rest) == [line + "\n"] + Lines(rest)
    ensures !("\n" <= rest) ==> Lines(line + "\r" + rest) == [line + "\n"] + Lines(rest)
  {
    hide Lines;
    FirstBreak(line, "\r\n" + rest);
    FirstBreak(line, "\r" + rest);
    var a, b := line + ("\r\n" + rest), line + ("\r" + rest);
    assert line + "\r\n" + rest == a && line + "\r" + rest == b;
    LinesStep(a);
    LinesStep(b);
    assert a[..|line|] == line && a[|line| + 2..] == rest;
    assert b[..|line|] == line && b[|line| + 1..] == rest;
  }

  lemma {:induction false} FirstBreak(line: string, tail: string)
    requires NoBreak(line) && tail != "" && (tail[0] == '\n' || tail[0] == '\r')
    ensures Break(line + tail) == |line|
  {
    if line == "" {
      assert line + tail == tail;
    } else {
      assert (line + tail)[1..] == line[1..] + tail;
      FirstBreak(line[1..], tail);
    }
  }

  lemma OneLine(line: string)
    requires NoBreak(line)
    ensures Lines(line + "\n") == [line + "\n"]
  {
    BreakAfter(line);
    var text := line + "\n";
    assert text[..|line|] == line && text[AfterBreak(text, |line|)..] == "";
  }

  // The text with the given lines.
  function FileOf(lines: seq<string>): (text: string)
    ensures Ended(text)
  {
    if lines == [] then "" else lines[0] + "\n" + FileOf(lines[1..])
  }

  function Broken(lines: seq<string>): (ls: seq<string>)
    ensures |ls| == |lines| && forall k | 0 <= k < |lines| :: ls[k] == lines[k] + "\n"
  {
    seq(|lines|, k requires 0 <= k < |lines| => lines[k] + "\n")
  }

  lemma BrokenStep(lines: seq<string>)
    requires lines != []
    ensures Broken(lines) == [lines[0] + "\n"] + Broken(lines[1..])
  {
  }

  // Lines without breaks of their own come back from the file, followed by those of the rest.
  lemma {:induction false} LinesOfFile(lines: seq<string>)
    requires forall k | 0 <= k < |lines| :: NoBreak(lines[k])
    ensures Lines(FileOf(lines)) == Broken(lines)
  {
    if lines != [] {
      hide Lines; hide NoBreak;
      OneLine(lines[0]);
      LinesConcat(lines[0] + "\n", FileOf(lines[1..]));
      LinesOfFile(lines[1..]);
      BrokenStep(lines);
    }
  }
}
