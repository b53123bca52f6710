/** `normalize_extracted_pages`: one section for every page, with a heading, paragraphs, and ids of its own. */
module PageNormalization {
  import opened Prelude
  import opened PythonText
  import opened CourseTree
  import opened StableIds
  import opened CourseCompiler
  import opened Extraction

  datatype Page = Page(number: int, text: string)

  /** Tenant, source version, parser and configuration, as they are written into names. */
  datatype Origin = Origin(tenant: string, version: string, parser: string, configuration: string)

  datatype NormalizedElement = NormalizedElement(id: Id, position: int, element: Element)

  datatype NormalizedSection = NormalizedSection(id: Id, position: int, title: string, page: int, elements: seq<NormalizedElement>)

  datatype NormalizationError = QualityInsufficient | OcrRequired(pages: seq<int>)

  function Texts(elements: seq<Element>): (ts: seq<string>)
    ensures |ts| == |elements| && forall i :: 0 <= i < |ts| ==> ts[i] == elements[i].text
  {
    seq(|elements|, i requires 0 <= i < |elements| => elements[i].text)
  }

  /* ---------- one page ---------- */

  /** The first non-blank line. */
  function FirstText(lines: seq<string>): (n: nat)
    requires exists i :: 0 <= i < |lines| && !IsBlank(lines[i])
    ensures n < |lines| && !IsBlank(lines[n]) && forall i :: 0 <= i < n ==> IsBlank(lines[i])
  {
    if IsBlank(lines[0]) then
      assert forall i :: 0 < i < |lines| ==> lines[i] == lines[1..][i - 1];
      1 + FirstText(lines[1..])
    else 0
  }

  predicate HasText(lines: seq<string>) {
    exists i :: 0 <= i < |lines| && !IsBlank(lines[i])
  }

  /** A short first line is the heading. */
  function HeadingOf(lines: seq<string>): Option<string>
    requires HasText(lines)
  {
    var first := Strip(lines[FirstText(lines)]);
    if |first| <= MAX_HEADING then Some(first) else None
  }

  function BodyLines(lines: seq<string>): seq<string>
    requires HasText(lines)
  {
    var n := FirstText(lines);
    if HeadingOf(lines).Some? then lines[..n] + lines[n + 1..] else lines
  }

  /** One paragraph for every run. */
  ghost predicate AreParagraphs(lines: seq<string>, runs: seq<Span>, elements: seq<Element>) {
    && |elements| == |runs|
    && forall i :: 0 <= i < |runs| ==>
         runs[i].from <= runs[i].to <= |lines| && elements[i] == Element(ParagraphElement, RunText(lines, runs[i]))
  }

  /** The heading, if there is one, and a paragraph for every maximal run of the lines below it. */
  ghost predicate AreElements(lines: seq<string>, elements: seq<Element>)
    requires HasText(lines)
  {
    var heading, body := HeadingOf(lines), BodyLines(lines);
    var first := if heading.Some? then 1 else 0;
    && |elements| >= first
    && (heading.Some? ==> elements[0] == Element(HeadingElement, heading.value))
    && exists runs: seq<Span> :: AreRuns(body, runs) && AreParagraphs(body, runs, elements[first..])
  }

  lemma {:induction false} WordsConcat(a: seq<string>, b: seq<string>)
    ensures Words(a + b) == Words(a) + Words(b)
  {
    if b == [] {
      assert a + b == a;
    } else {
      var last := |b| - 1;
      WordsConcat(a, b[..last]);
      assert (a + b)[..|a + b| - 1] == a + b[..last];
    }
  }

  lemma {:induction false} NoWords(lines: seq<string>)
    requires forall i :: 0 <= i < |lines| ==> IsBlank(lines[i])
    ensures Words(lines) == []
  {
    if lines != [] { NoWords(lines[..|lines| - 1]); }
  }

  lemma WordsOfOne(line: string)
    requires !IsBlank(line)
    ensures Words([line]) == [Strip(line)]
  {
    assert [line][..0] == [] && Words([]) == [];
  }

  /** Taking the heading out takes its word out. */
  lemma WordsWithHeading(lines: seq<string>)
    requires HasText(lines)
    ensures var n := FirstText(lines); Words(lines) == [Strip(lines[n])] + Words(lines[..n] + lines[n + 1..])
  {
    hide IsBlank, Strip, Words, FirstText;
    var n := FirstText(lines);
    var before, after := lines[..n], lines[n + 1..];
    NoWords(before);
    WordsOfOne(lines[n]);
    WordsConcat(before, after);
    WordsConcat([lines[n]], after);
    WordsConcat(before, [lines[n]] + after);
    assert lines == before + ([lines[n]] + after);
  }

  lemma JoinOfFirst(first: string, rest: seq<string>, words: seq<string>)
    requires Join(" ", rest) == Join(" ", words) && (rest == [] <==> words == [])
    ensures Join(" ", [first] + rest) == Join(" ", [first] + words)
  {
    assert ([first] + rest)[1..] == rest && ([first] + words)[1..] == words;
  }

  /** The heading and the paragraphs of a page; together they are all of its text. */
  method PageElements(lines: seq<string>) returns (elements: seq<Element>)
    requires HasText(lines)
    ensures elements != [] && AreElements(lines, elements)
    ensures Join(" ", Texts(elements)) == Join(" ", Words(lines))
  {
    hide IsBlank, Strip, Join, Words, AreRuns, RunText;
    var n := FirstText(lines);
    var first := Strip(lines[n]);
    var remaining := lines;
    elements := [];
    if |first| <= MAX_HEADING {
      remaining := lines[..n] + lines[n + 1..];
      elements := [Element(HeadingElement, first)];
    }
    ghost var headed := elements;
    var paragraphs, runs := Paragraphs(remaining);
    for i := 0 to |paragraphs|
      invariant |elements| == |headed| + i && elements[..|headed|] == headed
      invariant forall k :: 0 <= k < i ==> elements[|headed| + k] == Element(ParagraphElement, paragraphs[k])
    {
      elements := elements + [Element(ParagraphElement, paragraphs[i])];
    }
    assert AreParagraphs(remaining, runs, elements[|headed|..]);
    WordsWithHeading(lines);
    assert AreElements(lines, elements) by { assert BodyLines(lines) == remaining; }
    if |first| <= MAX_HEADING {
      assert Texts(elements) == [first] + paragraphs;
      JoinOfFirst(first, paragraphs, Words(remaining));
      assert elements[0] == headed[0];
    } else {
      assert Texts(elements) == paragraphs;
    }
  }

  /** No element of a page is blank. */
  lemma ElementsAreNotBlank(lines: seq<string>, elements: seq<Element>)
    requires HasText(lines) && AreElements(lines, elements)
    ensures forall e | e in elements :: !IsBlank(e.text)
  {
    hide IsBlank, Strip, AreRuns, BodyLines, FirstText, RunText;
    var body, first := BodyLines(lines), if HeadingOf(lines).Some? then 1 else 0;
    var runs: seq<Span> :| AreRuns(body, runs) && AreParagraphs(body, runs, elements[first..]);
    forall e | e in elements ensures !IsBlank(e.text) {
      var i :| 0 <= i < |elements| && elements[i] == e;
      if i < first {
        StrippedIsNotBlank(lines[FirstText(lines)]);
      } else {
        assert elements[i] == elements[first..][i - first];
        RunTextIsNotBlank(body, runs, i - first);
      }
    }
  }

  lemma RunTextIsNotBlank(lines: seq<string>, runs: seq<Span>, i: nat)
    requires AreRuns(lines, runs) && i < |runs|
    ensures !IsBlank(RunText(lines, runs[i]))
  {
    hide IsBlank, Words, Join;
    assert IsRun(lines, runs[i]);
    RunIsNotBlank(lines[runs[i].from..runs[i].to]);
  }

  lemma StrippedIsNotBlank(line: string)
    requires !IsBlank(line)
    ensures !IsBlank(Strip(line))
  {
    assert Strip(line)[0] in Strip(line);
  }

  lemma {:induction false} RunIsNotBlank(lines: seq<string>)
    requires lines != [] && forall i :: 0 <= i < |lines| ==> !IsBlank(lines[i])
    ensures !IsBlank(Join(" ", Words(lines)))
  {
    hide IsBlank, Strip;
    StrippedIsNotBlank(lines[0]);
    assert lines == [lines[0]] + lines[1..];
    WordsConcat([lines[0]], lines[1..]);
    assert [lines[0]][..0] == [] && Words([lines[0]]) == Words([]) + [Strip(lines[0])];
    JoinStartsWith(" ", Words(lines));
    PrefixIsNotBlank(Strip(lines[0]), Join(" ", Words(lines)));
  }

  lemma JoinStartsWith(separator: string, parts: seq<string>)
    requires parts != []
    ensures parts[0] <= Join(separator, parts)
  {}

  lemma PrefixIsNotBlank(a: string, b: string)
    requires a <= b && !IsBlank(a)
    ensures !IsBlank(b)
  {
    var c :| c in a && !IsSpace(c);
    assert c in b;
  }

  /* ---------- all pages ---------- */

  function KindName(kind: ElementKind): string {
    if kind == HeadingElement then "heading" else "paragraph"
  }

  function Prefix(kind: string, o: Origin): seq<string> {
    [kind, o.tenant, o.version, o.parser, o.configuration]
  }

  function ElementId(u: Uuids, sha: string -> string, o: Origin, page: nat, position: nat, e: Element): Id {
    StableId(u, Prefix("normalized-element", o) + [Decimal(page), Decimal(position), KindName(e.kind), sha(e.text)])
  }

  function SectionId(u: Uuids, sha: string -> string, o: Origin, position: nat, title: string): Id {
    StableId(u, Prefix("normalized-section", o) + [Decimal(position), sha(title)])
  }

  function Placed(u: Uuids, sha: string -> string, o: Origin, page: nat, elements: seq<Element>): (es: seq<NormalizedElement>)
    ensures |es| == |elements|
    ensures forall k :: 0 <= k < |es| ==>
      es[k] == NormalizedElement(ElementId(u, sha, o, page, k + 1, elements[k]), k + 1, elements[k])
  {
    seq(|elements|, k requires 0 <= k < |elements| =>
      NormalizedElement(ElementId(u, sha, o, page, k + 1, elements[k]), k + 1, elements[k]))
  }

  function TitleOf(lines: seq<string>, page: nat): string
    requires HasText(lines)
  {
    var heading := HeadingOf(lines);
    if heading.Some? && heading.value != "" then heading.value else "Page " + Decimal(page)
  }

  /** The section of a page: its title, and its elements numbered, named and conserving the page's text. */
  ghost predicate IsSectionOf(u: Uuids, sha: string -> string, o: Origin, page: Page, position: nat, s: NormalizedSection) {
    var lines := NormalizedLines(page.text);
    && page.number >= 0 && HasText(lines)
    && s.position == position && s.page == page.number && s.title == TitleOf(lines, page.number)
    && s.id == SectionId(u, sha, o, position, s.title)
    && exists elements ::
         && AreElements(lines, elements) && s.elements == Placed(u, sha, o, page.number, elements)
         && elements != [] && Join(" ", Texts(elements)) == Join(" ", Words(lines))
  }

  predicate IsEmptyPage(page: Page) {
    NormalizedLines(page.text) == []
  }

  /** The numbers of the pages without text. */
  function EmptyPages(pages: seq<Page>): seq<int> {
    if pages == [] then []
    else EmptyPages(pages[..|pages| - 1]) + (if IsEmptyPage(pages[|pages| - 1]) then [pages[|pages| - 1].number] else [])
  }

  /** The page that stops the normalization. */
  predicate IsRefused(pages: seq<Page>, oversized: string -> bool, i: nat)
    requires i < |pages|
  {
    pages[i].number != i + 1 || (!IsEmptyPage(pages[i]) && oversized(Join("\n", NormalizedLines(pages[i].text))))
  }

  lemma LinesOfText(value: string)
    requires NormalizedLines(value) != []
    ensures HasText(NormalizedLines(value))
  {
    NormalizedTextSplits(value);
  }

  /** Empty pages are collected and reported together once every page was looked at; any other fault ends at once. */
  method NormalizeExtractedPages(u: Uuids, sha: string -> string, o: Origin, pages: seq<Page>, oversized: string -> bool)
    returns (r: Result<seq<NormalizedSection>, NormalizationError>)
    ensures r == Err(QualityInsufficient) <==>
      !(1 <= |pages| <= 100) || exists i :: 0 <= i < |pages| && IsRefused(pages, oversized, i)
    ensures r.Err? && r.error.OcrRequired? ==> r.error.pages == EmptyPages(pages) != []
    ensures r.Ok? ==>
      && EmptyPages(pages) == [] && |r.value| == |pages|
      && forall i :: 0 <= i < |pages| ==> IsSectionOf(u, sha, o, pages[i], i + 1, r.value[i])
  {
    hide NormalizedLines, Join, IsBlank, Strip, AreElements, Words, StableId, Split, HasText;
    if !(1 <= |pages| <= MAX_PAGES) { return Err(QualityInsufficient); }
    var sections: seq<NormalizedSection> := [];
    var empty: seq<int> := [];
    for i := 0 to |pages|
      invariant forall k :: 0 <= k < i ==> !IsRefused(pages, oversized, k)
      invariant empty == EmptyPages(pages[..i])
      invariant empty == [] ==> |sections| == i
      invariant empty == [] ==> forall k :: 0 <= k < i ==> IsSectionOf(u, sha, o, pages[k], k + 1, sections[k])
    {
      var page := pages[i];
      assert pages[..i + 1][..i] == pages[..i];
      if page.number != i + 1 {
        assert IsRefused(pages, oversized, i);
        return Err(QualityInsufficient);
      }
      var text := NormalizedText(page.text);
      NormalizedTextSplits(page.text);
      if text == "" {
        empty := empty + [page.number];
      } else {
        if oversized(text) {
          assert IsRefused(pages, oversized, i);
          return Err(QualityInsufficient);
        }
        var section := NormalizePage(u, sha, o, page, text, |sections| + 1);
        sections := sections + [section];
      }
    }
    assert pages[..|pages|] == pages;
    if empty != [] { return Err(OcrRequired(empty)); }
    r := Ok(sections);
  }

  method NormalizePage(u: Uuids, sha: string -> string, o: Origin, page: Page, text: string, position: nat) returns (s: NormalizedSection)
    requires page.number >= 0 && NormalizedLines(page.text) != [] && text == Join("\n", NormalizedLines(page.text))
    ensures IsSectionOf(u, sha, o, page, position, s)
  {
    hide NormalizedLines, Join, IsBlank, Strip, AreElements, Words, StableId, Split, FirstText;
    NormalizedTextSplits(page.text);
    LinesOfText(page.text);
    var lines := Split(text);
    var elements := PageElements(lines);
    var title := TitleOf(lines, page.number);
    s := NormalizedSection(SectionId(u, sha, o, position, title), position, title, page.number, Placed(u, sha, o, page.number, elements));
  }

  /* ---------- names ---------- */

  lemma {:induction false} JoinAfterPrefix(prefix: seq<string>, a: seq<string>, b: seq<string>)
    requires a != [] && b != [] && Join(":", prefix + a) == Join(":", prefix + b)
    ensures Join(":", a) == Join(":", b)
  {
    if prefix == [] {
      assert prefix + a == a && prefix + b == b;
    } else {
      assert (prefix + a)[1..] == prefix[1..] + a && (prefix + b)[1..] == prefix[1..] + b;
      var x, y := Join(":", prefix[1..] + a), Join(":", prefix[1..] + b);
      assert prefix[0] + ":" + x == prefix[0] + ":" + y;
      assert (prefix[0] + ":" + x)[|prefix[0]| + 1..] == x && (prefix[0] + ":" + y)[|prefix[0]| + 1..] == y;
      JoinAfterPrefix(prefix[1..], a, b);
    }
  }

  lemma SameIdSameTail(u: Uuids, prefix: seq<string>, a: seq<string>, b: seq<string>)
    requires AreIdeal(u) && |a| == |b| >= 1 && StableId(u, prefix + a) == StableId(u, prefix + b)
    requires forall i :: 0 <= i < |a| - 1 ==> HasNoColon(a[i]) && HasNoColon(b[i])
    ensures a == b
  {
    hide Join;
    assert Name(prefix + a) == Name(prefix + b);
    assert Name(prefix + a)[7..] == Join(":", prefix + a) && Name(prefix + b)[7..] == Join(":", prefix + b);
    JoinAfterPrefix(prefix, a, b);
    JoinIsInjective(a, b);
  }

  /** Sections at different positions have different ids, whatever their titles. */
  lemma SectionIdsDiffer(u: Uuids, sha: string -> string, o: Origin, p: nat, q: nat, s: string, t: string)
    requires AreIdeal(u) && p != q
    ensures SectionId(u, sha, o, p, s) != SectionId(u, sha, o, q, t)
  {
    if SectionId(u, sha, o, p, s) == SectionId(u, sha, o, q, t) {
      var a, b := [Decimal(p), sha(s)], [Decimal(q), sha(t)];
      SameIdSameTail(u, Prefix("normalized-section", o), a, b);
      assert a[0] == b[0];
      DecimalIsInjective(p, q);
    }
  }

  /** Elements at different places have different ids, whatever their texts. */
  lemma ElementIdsDiffer(u: Uuids, sha: string -> string, o: Origin, page: nat, position: nat, e: Element, page': nat, position': nat, e': Element)
    requires AreIdeal(u) && (page != page' || position != position')
    ensures ElementId(u, sha, o, page, position, e) != ElementId(u, sha, o, page', position', e')
  {
    if ElementId(u, sha, o, page, position, e) == ElementId(u, sha, o, page', position', e') {
      var a, b := [Decimal(page), Decimal(position), KindName(e.kind), sha(e.text)],
                  [Decimal(page'), Decimal(position'), KindName(e'.kind), sha(e'.text)];
      SameIdSameTail(u, Prefix("normalized-element", o), a, b);
      assert a[0] == b[0] && a[1] == b[1];
      if page != page' { DecimalIsInjective(page, page'); } else { DecimalIsInjective(position, position'); }
    }
  }
}
