/** From extracted page text to headings, paragraphs and sections, with no text lost. */
module Extraction {
  import opened Prelude
  import opened PythonText

  const MAX_PAGES := 100
  const MAX_HEADING := 120

  /* ---------- lines ---------- */

  /** `value.replace("\r\n", "\n").replace("\r", "\n")` */
  function CanonicalNewlines(s: string): string {
    if s == "" then ""
    else if s[0] == '\r' && |s| > 1 && s[1] == '\n' then ['\n'] + CanonicalNewlines(s[2..])
    else [if s[0] == '\r' then '\n' else s[0]] + CanonicalNewlines(s[1..])
  }

  predicate IsNewline(s: string) {
    s == "\n" || s == "\r\n" || s == "\r"
  }

  /** Lines with a newline of any kind after each. */
  function Written(lines: seq<string>, newlines: seq<string>): string
    requires |newlines| == |lines|
  {
    if lines == [] then "" else lines[0] + newlines[0] + Written(lines[1..], newlines[1..])
  }

  lemma {:induction false} PlainPrefix(line: string, rest: string)
    requires '\r' !in line
    ensures CanonicalNewlines(line + rest) == line + CanonicalNewlines(rest)
  {
    if line == "" {
      assert line + rest == rest;
    } else {
      assert line[0] in line && forall c | c in line[1..] :: c in line;
      PlainPrefix(line[1..], rest);
      assert (line + rest)[1..] == line[1..] + rest && line == [line[0]] + line[1..];
    }
  }

  lemma NewlinePrefix(newline: string, rest: string)
    requires IsNewline(newline) && (newline == "\r" ==> rest == "" || rest[0] != '\n')
    ensures CanonicalNewlines(newline + rest) == "\n" + CanonicalNewlines(rest)
  {
    var s := newline + rest;
    if newline == "\r\n" { assert s[2..] == rest; } else { assert s[1..] == rest; }
  }

  /** Whatever newline ends each line, the canonical text has the same lines, each ended by one line feed; a carriage return is taken
      together with a line feed that follows it. */
  lemma {:induction false} NewlinesAreOne(lines: seq<string>, newlines: seq<string>)
    requires |newlines| == |lines|
    requires forall i :: 0 <= i < |lines| ==> '\r' !in lines[i] && IsLine(lines[i]) && IsNewline(newlines[i])
    requires forall i :: 0 <= i < |lines| - 1 && newlines[i] == "\r" && lines[i + 1] == "" ==> newlines[i + 1] != "\n"
    ensures Split(CanonicalNewlines(Written(lines, newlines))) == lines + [""]
  {
    if lines != [] {
      var rest := Written(lines[1..], newlines[1..]);
      NewlinesAreOne(lines[1..], newlines[1..]);
      if newlines[0] == "\r" && rest != "" { StartOfRest(lines, newlines); }
      NewlinePrefix(newlines[0], rest);
      PlainPrefix(lines[0], newlines[0] + rest);
      assert lines[0] + newlines[0] + rest == lines[0] + (newlines[0] + rest);
      assert lines[0] + ("\n" + CanonicalNewlines(rest)) == lines[0] + "\n" + CanonicalNewlines(rest);
      SplitFirstLine(lines[0], CanonicalNewlines(rest));
      assert lines == [lines[0]] + lines[1..];
    }
  }

  lemma StartOfRest(lines: seq<string>, newlines: seq<string>)
    requires |newlines| == |lines| > 0
    requires forall i :: 0 <= i < |lines| ==> IsLine(lines[i]) && IsNewline(newlines[i])
    requires |lines| > 1 && lines[1] == "" ==> newlines[1] != "\n"
    ensures var rest := Written(lines[1..], newlines[1..]); rest == "" || rest[0] != '\n'
  {
    if |lines| > 1 {
      assert lines[1..][0] == lines[1] && newlines[1..][0] == newlines[1];
      if lines[1] != "" { assert lines[1][0] in lines[1]; }
    }
  }

  predicate IsLine(s: string) {
    '\n' !in s
  }

  /** `value.split("\n")` */
  function Split(s: string): (lines: seq<string>)
    ensures lines != [] && forall line | line in lines :: IsLine(line)
  {
    if s == "" then [""]
    else
      var rest := Split(s[1..]);
      if s[0] == '\n' then [""] + rest
      else
        var first := [s[0]] + rest[0];
        assert rest[0] in rest && '\n' !in first;
        assert forall line | line in rest[1..] :: line in rest;
        [first] + rest[1..]
  }

  lemma {:induction false} SplitLine(line: string)
    requires IsLine(line)
    ensures Split(line) == [line]
  {
    if line != "" {
      assert line[0] in line && forall c | c in line[1..] :: c in line;
      SplitLine(line[1..]);
      assert line == [line[0]] + line[1..];
    }
  }

  lemma {:induction false} SplitFirstLine(line: string, rest: string)
    requires IsLine(line)
    ensures Split(line + "\n" + rest) == [line] + Split(rest)
  {
    var s := line + "\n" + rest;
    if line == "" {
      assert s[1..] == rest;
    } else {
      assert line[0] in line && forall c | c in line[1..] :: c in line;
      SplitFirstLine(line[1..], rest);
      assert s[1..] == line[1..] + "\n" + rest;
      assert line == [line[0]] + line[1..];
    }
  }

  /** Splitting undoes joining. */
  lemma {:induction false} SplitOfJoin(lines: seq<string>)
    requires lines != [] && forall line | line in lines :: IsLine(line)
    ensures Split(Join("\n", lines)) == lines
  {
    assert lines[0] in lines;
    if |lines| == 1 {
      SplitLine(lines[0]);
      assert lines == [lines[0]];
    } else {
      assert forall line | line in lines[1..] :: line in lines;
      SplitOfJoin(lines[1..]);
      SplitFirstLine(lines[0], Join("\n", lines[1..]));
      assert lines == [lines[0]] + lines[1..];
    }
  }

  function TrimmedLines(lines: seq<string>): (r: seq<string>)
    ensures |r| == |lines| && forall i :: 0 <= i < |r| ==> r[i] == TrimRight(lines[i])
  {
    seq(|lines|, i requires 0 <= i < |lines| => TrimRight(lines[i]))
  }

  function DropLeading(lines: seq<string>): (r: seq<string>)
    ensures r != [] ==> r[0] != ""
    ensures forall line | line in r :: line in lines
  {
    if lines == [] || lines[0] != "" then lines
    else assert lines == [lines[0]] + lines[1..]; DropLeading(lines[1..])
  }

  function DropTrailing(lines: seq<string>): (r: seq<string>)
    ensures r != [] ==> r[|r| - 1] != ""
    ensures r <= lines && forall line | line in r :: line in lines
  {
    if lines == [] || lines[|lines| - 1] != "" then lines else DropTrailing(lines[..|lines| - 1])
  }

  /** The lines that `_normalized_text` keeps. */
  function NormalizedLines(value: string): seq<string> {
    DropTrailing(DropLeading(TrimmedLines(Split(CanonicalNewlines(value)))))
  }

  /** `_normalized_text`, for text that is in NFC already. */
  method NormalizedText(value: string) returns (text: string)
    ensures text == Join("\n", NormalizedLines(value))
  {
    var split := Split(CanonicalNewlines(value));
    var lines: seq<string> := [];
    for i := 0 to |split|
      invariant lines == TrimmedLines(split)[..i]
    {
      lines := lines + [TrimRight(split[i])];
    }
    assert lines == TrimmedLines(split);
    while lines != [] && lines[0] == ""
      invariant DropLeading(lines) == DropLeading(TrimmedLines(split))
      decreases |lines|
    {
      lines := lines[1..];
    }
    while lines != [] && lines[|lines| - 1] == ""
      invariant DropTrailing(lines) == NormalizedLines(value)
      decreases |lines|
    {
      lines := lines[..|lines| - 1];
    }
    text := Join("\n", lines);
  }

  /** Normalized text is empty exactly when the page has only white space, and otherwise splits back into the kept lines. */
  lemma NormalizedTextSplits(value: string)
    ensures var lines := NormalizedLines(value);
      && (Join("\n", lines) == "" <==> lines == [])
      && (lines != [] ==> Split(Join("\n", lines)) == lines && !IsBlank(lines[0]))
  {
    var split := Split(CanonicalNewlines(value));
    var lines := NormalizedLines(value);
    forall line | line in lines ensures IsLine(line) && exists whole :: whole in split && line == TrimRight(whole) {
      assert line in TrimmedLines(split);
      var i :| 0 <= i < |split| && TrimmedLines(split)[i] == line;
      assert split[i] in split && forall c | c in line :: c in split[i];
    }
    if lines != [] {
      SplitOfJoin(lines);
      FirstLineStays(TrimmedLines(split));
      assert lines[0] in lines;
      TrimmedIsNotBlank(lines[0], split);
      JoinIsNotEmpty("\n", lines);
    }
  }

  lemma FirstLineStays(lines: seq<string>)
    requires DropTrailing(DropLeading(lines)) != []
    ensures DropTrailing(DropLeading(lines))[0] != ""
  {
    assert DropTrailing(DropLeading(lines))[0] == DropLeading(lines)[0];
  }

  lemma TrimmedIsNotBlank(line: string, split: seq<string>)
    requires line != "" && exists whole :: whole in split && line == TrimRight(whole)
    ensures !IsBlank(line)
  {
    assert line[|line| - 1] in line;
  }

  lemma JoinIsNotEmpty(separator: string, parts: seq<string>)
    requires parts != [] && parts[0] != ""
    ensures Join(separator, parts) != ""
  {}

  /* ---------- paragraphs ---------- */

  /** The stripped non-blank lines, in order. */
  function Words(lines: seq<string>): seq<string> {
    if lines == [] then []
    else
      var last := lines[|lines| - 1];
      Words(lines[..|lines| - 1]) + (if IsBlank(last) then [] else [Strip(last)])
  }

  lemma {:induction false} JoinOneMore(separator: string, parts: seq<string>, part: string)
    ensures Join(separator, parts + [part]) == if parts == [] then part else Join(separator, parts) + separator + part
  {
    if |parts| > 0 {
      assert (parts + [part])[1..] == parts[1..] + [part];
      JoinOneMore(separator, parts[1..], part);
      if |parts| > 1 {
        RegroupJoin(parts[0], separator, Join(separator, parts[1..]), part);
      }
    }
  }

  lemma RegroupJoin(a: string, separator: string, b: string, part: string)
    ensures a + separator + (b + separator + part) == (a + separator + b) + separator + part
  {}

  /** Appending to the last part appends to the whole. */
  lemma JoinGrowsLast(separator: string, parts: seq<string>, last: string, more: string)
    ensures Join(separator, parts + [last + separator + more]) == Join(separator, parts + [last]) + separator + more
  {
    JoinOneMore(separator, parts, last);
    JoinOneMore(separator, parts, last + separator + more);
    if parts != [] {
      RegroupLast(Join(separator, parts), separator, last, more);
    }
  }

  lemma RegroupLast(a: string, separator: string, last: string, more: string)
    ensures a + separator + (last + separator + more) == (a + separator + last) + separator + more
  {}

  /** A run of lines, from its first line to the one after its last. */
  datatype Span = Span(from: nat, to: nat)

  /** Non-blank lines that a blank line, or the edge of the page, bounds on both sides. */
  predicate IsRun(lines: seq<string>, r: Span) {
    && r.from < r.to <= |lines|
    && (forall n :: r.from <= n < r.to ==> !IsBlank(lines[n]))
    && (r.from == 0 || IsBlank(lines[r.from - 1]))
    && (r.to == |lines| || IsBlank(lines[r.to]))
  }

  predicate InSome(runs: seq<Span>, n: int) {
    exists i :: 0 <= i < |runs| && runs[i].from <= n < runs[i].to
  }

  predicate InOrder(runs: seq<Span>) {
    forall i, j :: 0 <= i < j < |runs| ==> runs[i].to < runs[j].from
  }

  /** Exactly the maximal runs of non-blank lines, in order. */
  ghost predicate AreRuns(lines: seq<string>, runs: seq<Span>) {
    && (forall i :: 0 <= i < |runs| ==> IsRun(lines, runs[i]))
    && InOrder(runs)
    && (forall n :: 0 <= n < |lines| && !IsBlank(lines[n]) ==> InSome(runs, n))
  }

  /** `" ".join` of the stripped lines of a run. */
  function RunText(lines: seq<string>, run: Span): string
    requires run.from <= run.to <= |lines|
  {
    Join(" ", Words(lines[run.from..run.to]))
  }

  /** The closed runs among the first `n` lines, and the start of the open one. */
  ghost predicate RunsSoFar(lines: seq<string>, n: nat, runs: seq<Span>, start: nat)
    requires n <= |lines|
  {
    && start <= n
    && (forall i :: 0 <= i < |runs| ==> IsRun(lines, runs[i]) && runs[i].to < start)
    && InOrder(runs)
    && (forall m :: 0 <= m < start && !IsBlank(lines[m]) ==> InSome(runs, m))
    && (forall m :: start <= m < n ==> !IsBlank(lines[m]))
    && (start == 0 || IsBlank(lines[start - 1]))
  }

  lemma NoRunsYet(lines: seq<string>)
    ensures RunsSoFar(lines, 0, [], 0)
  {}

  lemma ExtendRun(lines: seq<string>, n: nat, runs: seq<Span>, start: nat)
    requires n < |lines| && RunsSoFar(lines, n, runs, start) && !IsBlank(lines[n])
    ensures RunsSoFar(lines, n + 1, runs, start)
  {
    hide IsBlank, IsRun, InSome, InOrder;
  }

  lemma InSomeStays(runs: seq<Span>, r: Span, m: int)
    ensures InSome(runs + [r], m) <==> InSome(runs, m) || r.from <= m < r.to
  {
    if InSome(runs, m) {
      var i :| 0 <= i < |runs| && runs[i].from <= m < runs[i].to;
      assert (runs + [r])[i] == runs[i];
    }
    if r.from <= m < r.to { assert (runs + [r])[|runs|] == r; }
  }

  /** The open run, bounded by what follows, joins the closed ones. */
  lemma AddRun(lines: seq<string>, n: nat, runs: seq<Span>, start: nat)
    requires n <= |lines| && RunsSoFar(lines, n, runs, start) && start < n && (n == |lines| || IsBlank(lines[n]))
    ensures var next := runs + [Span(start, n)];
      && (forall i :: 0 <= i < |next| ==> IsRun(lines, next[i]) && next[i].to <= n) && InOrder(next)
      && (forall m :: 0 <= m < n && !IsBlank(lines[m]) ==> InSome(next, m))
  {
    hide IsBlank, InSome;
    var r := Span(start, n);
    var next := runs + [r];
    assert IsRun(lines, r);
    forall m | 0 <= m < n && !IsBlank(lines[m]) ensures InSome(next, m) { InSomeStays(runs, r, m); }
  }

  lemma CloseRun(lines: seq<string>, n: nat, runs: seq<Span>, start: nat)
    requires n < |lines| && RunsSoFar(lines, n, runs, start) && IsBlank(lines[n])
    ensures RunsSoFar(lines, n + 1, if start < n then runs + [Span(start, n)] else runs, n + 1)
  {
    hide IsBlank, InSome, IsRun, InOrder;
    if start < n { AddRun(lines, n, runs, start); }
  }

  lemma FinishRuns(lines: seq<string>, runs: seq<Span>, start: nat)
    requires RunsSoFar(lines, |lines|, runs, start)
    ensures AreRuns(lines, if start < |lines| then runs + [Span(start, |lines|)] else runs)
  {
    hide IsBlank, InSome, IsRun, InOrder;
    if start < |lines| { AddRun(lines, |lines|, runs, start); }
  }

  /** The texts of the closed paragraphs followed by the open one, joined. */
  function TextSoFar(paragraphs: seq<string>, current: seq<string>): string {
    Join(" ", if current == [] then paragraphs else paragraphs + [Join(" ", current)])
  }

  lemma OneWordMore(paragraphs: seq<string>, current: seq<string>, word: string, before: seq<string>)
    requires TextSoFar(paragraphs, current) == Join(" ", before)
    requires before == [] <==> paragraphs == [] && current == []
    ensures TextSoFar(paragraphs, current + [word]) == Join(" ", before + [word])
  {
    JoinOneMore(" ", before, word);
    JoinOneMore(" ", current, word);
    if current == [] {
      assert current + [word] == [word] && Join(" ", [word]) == word;
      JoinOneMore(" ", paragraphs, word);
    } else {
      JoinGrowsLast(" ", paragraphs, Join(" ", current), word);
    }
  }

  /** `_paragraphs`: one paragraph for every maximal run of non-blank lines, and together all of their text. */
  method Paragraphs(lines: seq<string>) returns (paragraphs: seq<string>, ghost runs: seq<Span>)
    ensures AreRuns(lines, runs)
    ensures |paragraphs| == |runs|
    ensures forall i :: 0 <= i < |runs| ==> runs[i].from <= runs[i].to <= |lines| && paragraphs[i] == RunText(lines, runs[i])
    ensures Join(" ", paragraphs) == Join(" ", Words(lines))
    ensures paragraphs == [] <==> Words(lines) == []
  {
    hide IsBlank, Strip, Join, RunsSoFar, AreRuns, Words, TextSoFar;
    paragraphs, runs := [], [];
    var current: seq<string> := [];
    ghost var start := 0;
    NoRunsYet(lines);
    NoWordsYet(lines);
    for n := 0 to |lines|
      invariant start <= n && (current == [] <==> start == n)
      invariant RunsSoFar(lines, n, runs, start)
      invariant current == Words(lines[start..n])
      invariant |paragraphs| == |runs|
      invariant forall i :: 0 <= i < |runs| ==> runs[i].from <= runs[i].to <= |lines| && paragraphs[i] == RunText(lines, runs[i])
      invariant TextSoFar(paragraphs, current) == Join(" ", Words(lines[..n]))
      invariant Words(lines[..n]) == [] <==> paragraphs == [] && current == []
    {
      var stripped := Strip(lines[n]);
      StripOfBlank(lines[n]);
      WordsOneMore(lines, 0, n);
      assert lines[0..n] == lines[..n] && lines[0..n + 1] == lines[..n + 1];
      if stripped != "" {
        WordsOneMore(lines, start, n);
        ExtendRun(lines, n, runs, start);
        OneWordMore(paragraphs, current, stripped, Words(lines[..n]));
        current := current + [stripped];
      } else {
        CloseRun(lines, n, runs, start);
        CloseParagraph(paragraphs, current);
        if current != [] {
          paragraphs := paragraphs + [Join(" ", current)];
          runs := runs + [Span(start, n)];
          current := [];
        }
        start := n + 1;
        WordsOfNone(lines, start);
      }
    }
    assert lines[..|lines|] == lines;
    FinishRuns(lines, runs, start);
    CloseParagraph(paragraphs, current);
    if current != [] {
      paragraphs := paragraphs + [Join(" ", current)];
      runs := runs + [Span(start, |lines|)];
    }
  }

  /** Closing the open paragraph leaves the text as it is. */
  lemma CloseParagraph(paragraphs: seq<string>, current: seq<string>)
    ensures TextSoFar(paragraphs, current) == TextSoFar(if current == [] then paragraphs else paragraphs + [Join(" ", current)], [])
    ensures TextSoFar(paragraphs, []) == Join(" ", paragraphs)
    ensures current != [] ==> TextSoFar(paragraphs, current) == Join(" ", paragraphs + [Join(" ", current)])
  {}

  lemma NoWordsYet(lines: seq<string>)
    ensures Words(lines[0..0]) == [] && Words(lines[..0]) == [] && TextSoFar([], []) == Join(" ", [])
  {}

  lemma WordsOfNone(lines: seq<string>, n: nat)
    requires n <= |lines|
    ensures Words(lines[n..n]) == []
  {}

  lemma WordsOneMore(lines: seq<string>, start: nat, n: nat)
    requires start <= n < |lines|
    ensures Words(lines[start..n + 1])
      == if IsBlank(lines[n]) then Words(lines[start..n]) else Words(lines[start..n]) + [Strip(lines[n])]
  {
    assert lines[start..n + 1][..n - start] == lines[start..n];
  }

  lemma StripOfBlank(line: string)
    ensures Strip(line) == "" <==> IsBlank(line)
  {}

  /** Runs that share a line are the same run. */
  lemma SameRun(lines: seq<string>, r: Span, t: Span, n: nat)
    requires IsRun(lines, r) && IsRun(lines, t) && r.from <= n < r.to && t.from <= n < t.to
    ensures r == t
  {
    hide IsBlank;
    assert !(t.from <= r.from - 1 < t.to) && !(t.from <= r.to < t.to);
    assert !(r.from <= t.from - 1 < r.to) && !(r.from <= t.to < r.to);
  }

  lemma RunIsFound(lines: seq<string>, a: seq<Span>, b: seq<Span>, i: nat)
    requires AreRuns(lines, a) && AreRuns(lines, b) && i < |a|
    ensures a[i] in b
  {
    hide IsBlank;
    assert IsRun(lines, a[i]) && !IsBlank(lines[a[i].from]) && InSome(b, a[i].from);
    var j :| 0 <= j < |b| && b[j].from <= a[i].from < b[j].to;
    SameRun(lines, a[i], b[j], a[i].from);
  }

  function Starts(runs: seq<Span>): (r: seq<int>)
    ensures |r| == |runs| && forall i :: 0 <= i < |r| ==> r[i] == runs[i].from
  {
    seq(|runs|, i requires 0 <= i < |runs| => runs[i].from)
  }

  lemma StartsToo(lines: seq<string>, a: seq<Span>, b: seq<Span>)
    requires AreRuns(lines, a) && AreRuns(lines, b)
    ensures forall x | x in Starts(a) :: x in Starts(b)
  {
    hide AreRuns;
    forall x | x in Starts(a) ensures x in Starts(b) {
      var i :| 0 <= i < |a| && Starts(a)[i] == x;
      RunIsFound(lines, a, b, i);
      var j :| 0 <= j < |b| && b[j] == a[i];
      assert Starts(b)[j] == x;
    }
  }

  lemma StartsAscend(lines: seq<string>, runs: seq<Span>)
    requires AreRuns(lines, runs)
    ensures StrictlyAscending(Starts(runs))
  {
    forall i, j | 0 <= i < j < |runs| ensures runs[i].from < runs[j].from { assert IsRun(lines, runs[i]); }
  }

  /** The maximal runs of a text are one list. */
  lemma RunsAreUnique(lines: seq<string>, a: seq<Span>, b: seq<Span>)
    requires AreRuns(lines, a) && AreRuns(lines, b)
    ensures a == b
  {
    hide AreRuns;
    StartsToo(lines, a, b);
    StartsToo(lines, b, a);
    StartsAscend(lines, a);
    StartsAscend(lines, b);
    AscendingIsUnique(Starts(a), Starts(b));
    assert |a| == |Starts(a)| == |b|;
    forall i | 0 <= i < |a| ensures a[i] == b[i] {
      RunIsFound(lines, a, b, i);
      var j :| 0 <= j < |b| && b[j] == a[i];
      assert Starts(b)[j] == Starts(a)[i] == Starts(b)[i];
    }
  }
}
