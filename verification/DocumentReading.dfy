/** What a reader finds in a rich-text document, whoever built it: the entries of its content, each with its type, level and text. */
module DocumentReading {
  import opened Prelude
  import opened PythonText
  import opened CanonicalJson
  import opened CourseTree
  import opened StableIds
  import opened CourseCompiler

  datatype DocumentEntry = DocumentEntry(kind: string, level: Option<int>, text: string)

  function TextAt(j: Json, key: string): string {
    if j.Obj? && key in j.fields && j.fields[key].Str? then j.fields[key].s else ""
  }

  function LevelOf(j: Json): Option<int> {
    if j.Obj? && "level" in j.fields && j.fields["level"].Int? then Some(j.fields["level"].n) else None
  }

  function ItemsAt(j: Json, key: string): seq<Json> {
    if j.Obj? && key in j.fields && j.fields[key].Arr? then j.fields[key].items else []
  }

  /** The texts of inline nodes, run together. */
  function InlineText(nodes: seq<Json>): string {
    if nodes == [] then "" else TextAt(nodes[0], "text") + InlineText(nodes[1..])
  }

  function EntryOf(node: Json): DocumentEntry {
    DocumentEntry(TextAt(node, "type"), LevelOf(node), InlineText(ItemsAt(node, "content")))
  }

  function Read(document: Json): (entries: seq<DocumentEntry>)
    ensures |entries| == |ItemsAt(document, "content")|
    ensures forall i :: 0 <= i < |entries| ==> entries[i] == EntryOf(ItemsAt(document, "content")[i])
  {
    seq(|ItemsAt(document, "content")|, i requires 0 <= i < |ItemsAt(document, "content")| => EntryOf(ItemsAt(document, "content")[i]))
  }

  /** A document that reads as a heading with the title, followed by the elements in order, each as what it is. */
  ghost predicate ReadsAs(document: Json, title: string, elements: seq<Element>) {
    var entries := Read(document);
    && TextAt(document, "type") == "document"
    && |entries| == |elements| + 1 && entries[0] == DocumentEntry("heading", Some(2), title)
    && forall k :: 0 <= k < |elements| ==>
         entries[k + 1] ==
           if elements[k].kind == HeadingElement then DocumentEntry("heading", Some(2), elements[k].text)
           else DocumentEntry("paragraph", None, elements[k].text)
  }

  /** The texts that a reader finds below the title. */
  function TextsBelowTitle(document: Json): (ts: seq<string>)
    ensures |ts| == if Read(document) == [] then 0 else |Read(document)| - 1
    ensures forall k :: 0 <= k < |ts| ==> ts[k] == Read(document)[k + 1].text
  {
    var entries := Read(document);
    if entries == [] then [] else seq(|entries| - 1, k requires 0 <= k < |entries| - 1 => entries[k + 1].text)
  }

  lemma OneTextReads(text: string)
    ensures EntryOf(Heading(text)) == DocumentEntry("heading", Some(2), text)
    ensures EntryOf(Paragraph(text)) == DocumentEntry("paragraph", None, text)
  {
    var nodes := [TextNode(text)];
    assert nodes[1..] == [] && TextAt(nodes[0], "text") == text;
    assert InlineText(nodes) == text;
    assert ItemsAt(Heading(text), "content") == nodes && ItemsAt(Paragraph(text), "content") == nodes;
  }

  lemma LessonDocumentReads(title: string, elements: seq<Element>)
    ensures ReadsAs(LessonDocument(title, elements), title, elements)
  {
    hide EntryOf, Heading, Paragraph;
    var nodes := [Heading(title)] + ElementNodes(elements);
    assert ItemsAt(LessonDocument(title, elements), "content") == nodes;
    OneTextReads(title);
    forall k | 0 <= k < |elements|
      ensures EntryOf(nodes[k + 1]) ==
        if elements[k].kind == HeadingElement then DocumentEntry("heading", Some(2), elements[k].text)
        else DocumentEntry("paragraph", None, elements[k].text)
    {
      assert nodes[k + 1] == ElementNode(elements[k]);
      OneTextReads(elements[k].text);
    }
  }

  /** The lesson that is generated for an item: under the item's title, the document that reads as the title and the elements of the
      item's section, in order. */
  ghost predicate IsLessonFor(u: Uuids, run: Id, item: Item, sections: seq<SourceSection>, lesson: GeneratedLesson) {
    && lesson.id == ArtifactId(u, run, item.id) && lesson.item == item.id && lesson.title == item.title
    && lesson.sourceSection == item.sourceSection
    && exists s | s in sections :: s.id == item.sourceSection && ReadsAs(lesson.document, item.title, s.elements)
  }

  lemma {:induction false} SectionIsListed(sections: seq<SourceSection>, id: Id)
    requires SectionById(sections, id).Some?
    ensures SectionById(sections, id).value in sections && SectionById(sections, id).value.id == id
  {
    var last := |sections| - 1;
    if sections[last].id != id { SectionIsListed(sections[..last], id); }
  }

  lemma {:induction false} LessonsRead(u: Uuids, digest: Json -> string, run: Id, items: seq<Item>, sections: seq<SourceSection>)
    requires LessonsFrom(u, digest, run, items, sections).Ok?
    ensures var lessons := LessonsFrom(u, digest, run, items, sections).value;
      |lessons| == |items| && forall n :: 0 <= n < |items| ==> IsLessonFor(u, run, items[n], sections, lessons[n])
  {
    hide LessonDocument, ReadsAs, StableId, LessonError;
    if items != [] {
      var last := |items| - 1;
      LessonsRead(u, digest, run, items[..last], sections);
      FoundWithoutError(items[last], sections);
      SectionIsListed(sections, items[last].sourceSection);
      LessonDocumentReads(items[last].title, SectionById(sections, items[last].sourceSection).value.elements);
      assert IsLessonFor(u, run, items[last], sections, LessonsFrom(u, digest, run, items, sections).value[last]);
    }
  }

  lemma FoundWithoutError(item: Item, sections: seq<SourceSection>)
    requires LessonError(item, sections).None?
    ensures SectionById(sections, item.sourceSection).Some?
  {}

  /** Whatever blueprint and sections the generator is given: when it succeeds, it gives one lesson for every lesson item, in order,
      each reading as the title and then the elements of the item's section. */
  lemma GeneratedLessonsRead(u: Uuids, digest: Json -> string, run: Id, b: Blueprint, sections: seq<SourceSection>)
    requires Generated(u, digest, run, b, sections).Ok?
    ensures var items, lessons := ItemsOf(b.items, LessonItem), Generated(u, digest, run, b, sections).value;
      |lessons| == |items| && forall n :: 0 <= n < |items| ==> IsLessonFor(u, run, items[n], sections, lessons[n])
  {
    hide LessonsFrom, IsLessonFor;
    LessonsRead(u, digest, run, ItemsOf(b.items, LessonItem), sections);
  }

  /** What stops the generator at an item. */
  lemma LessonErrorIs(item: Item, sections: seq<SourceSection>)
    ensures var s := SectionById(sections, item.sourceSection);
      LessonError(item, sections) ==
        if s.None? || s.value.elements == [] then Some(SourceEdgeInvalid)
        else if exists e | e in s.value.elements :: IsBlank(e.text) || |e.text| > 10_000 then Some(OutputInvalid)
        else if |s.value.elements| > 499 || IsBlank(item.title) || |item.title| > 10_000 then Some(LifecycleErrorRaised)
        else None
  {
    hide LessonDocument;
    if SectionById(sections, item.sourceSection).Some? {
      DocumentFits(item.title, SectionById(sections, item.sourceSection).value.elements);
    }
  }
}
