/** From normalized source sections to a course draft: plan, stored blueprint, generated lessons, canonicalization. */
module CourseCompiler {
  import opened Prelude
  import opened PythonText
  import opened CanonicalJson
  import opened RichText
  import opened CourseTree
  import opened StableIds

  const MAX_SECTIONS := 100
  const MAX_TITLE := 160

  datatype ElementKind = HeadingElement | ParagraphElement
  datatype Element = Element(kind: ElementKind, text: string)
  datatype SourceSection = SourceSection(id: Id, position: int, title: string, elements: seq<Element>)

  /** In the order in which the database sorts the kinds. */
  datatype ItemKind = LessonItem | ModuleItem
  datatype Item = Item(id: Id, kind: ItemKind, parent: Option<Id>, position: int, title: string, sourceSection: Id)
  datatype Blueprint = Blueprint(id: Id, title: string, items: seq<Item>)

  datatype GeneratedLesson = GeneratedLesson(id: Id, item: Id, sourceSection: Id, title: string, document: Json, contentHash: string)

  /** What an edge points from: the check constraint on edges admits exactly one of the two columns, by the kind of the edge. */
  datatype EdgeTarget = BlueprintItem(item: Id) | GeneratedArtifact(artifact: Id)

  /** A stored edge to the section that a blueprint item or a generated lesson came from. */
  datatype SourceEdge = SourceEdge(id: Id, target: EdgeTarget, sourceSection: Id)

  datatype CompileError =
    | SourceInvalid | OutputInvalid | SourceEdgeInvalid | ProvenanceInvalid | SchemaInvalid | LifecycleErrorRaised

  function Cut(s: string, n: nat): (r: string)
    ensures r <= s && |r| <= n
  {
    if |s| <= n then s else s[..n]
  }

  /* ---------- plan ---------- */

  function ModuleId(u: Uuids, run: Id, section: Id): Id {
    StableId(u, ["generation-blueprint-module", u.show(run), u.show(section)])
  }

  function LessonId(u: Uuids, run: Id, section: Id): Id {
    StableId(u, ["generation-blueprint-lesson", u.show(run), u.show(section)])
  }

  function BlueprintId(u: Uuids, run: Id): Id {
    StableId(u, ["generation-blueprint", u.show(run), Decimal(1)])
  }

  function ModuleOf(u: Uuids, run: Id, s: SourceSection): Item {
    Item(ModuleId(u, run, s.id), ModuleItem, None, s.position, Cut(s.title, MAX_TITLE), s.id)
  }

  function LessonOf(u: Uuids, run: Id, s: SourceSection): Item {
    Item(LessonId(u, run, s.id), LessonItem, Some(ModuleId(u, run, s.id)), 1, Cut(s.title, MAX_TITLE), s.id)
  }

  /** A module and a lesson for every section, in source order. */
  function PlannedItems(u: Uuids, run: Id, sections: seq<SourceSection>): seq<Item> {
    if sections == [] then []
    else
      var s := sections[|sections| - 1];
      PlannedItems(u, run, sections[..|sections| - 1]) + [ModuleOf(u, run, s), LessonOf(u, run, s)]
  }

  predicate IsNumbered(sections: seq<SourceSection>) {
    forall i :: 0 <= i < |sections| ==> sections[i].position == i + 1
  }

  function Planned(u: Uuids, run: Id, sourceTitle: string, sections: seq<SourceSection>): Result<Blueprint, CompileError> {
    if !(1 <= |sections| <= MAX_SECTIONS) || !IsNumbered(sections) || Cut(Strip(sourceTitle), MAX_TITLE) == "" then Err(SourceInvalid)
    else Ok(Blueprint(BlueprintId(u, run), Cut(Strip(sourceTitle), MAX_TITLE), PlannedItems(u, run, sections)))
  }

  method Plan(u: Uuids, run: Id, sourceTitle: string, sections: seq<SourceSection>) returns (r: Result<Blueprint, CompileError>)
    ensures r == Planned(u, run, sourceTitle, sections)
  {
    if !(1 <= |sections| <= MAX_SECTIONS) { return Err(SourceInvalid); }
    if exists i :: 0 <= i < |sections| && sections[i].position != i + 1 { return Err(SourceInvalid); }
    var title := Cut(Strip(sourceTitle), MAX_TITLE);
    if title == "" { return Err(SourceInvalid); }
    var items: seq<Item> := [];
    for i := 0 to |sections|
      invariant items == PlannedItems(u, run, sections[..i])
    {
      var s := sections[i];
      var moduleId := ModuleId(u, run, s.id);
      items := items + [Item(moduleId, ModuleItem, None, s.position, Cut(s.title, MAX_TITLE), s.id),
                        Item(LessonId(u, run, s.id), LessonItem, Some(moduleId), 1, Cut(s.title, MAX_TITLE), s.id)];
      assert sections[..i + 1][..i] == sections[..i];
    }
    assert sections[..|sections|] == sections;
    r := Ok(Blueprint(BlueprintId(u, run), title, items));
  }

  /* ---------- `_validate_blueprint` ---------- */

  function ItemsOf(items: seq<Item>, kind: ItemKind): seq<Item> {
    if items == [] then []
    else
      var last := items[|items| - 1];
      ItemsOf(items[..|items| - 1], kind) + (if last.kind == kind then [last] else [])
  }

  function ItemIds(items: seq<Item>): set<Id> {
    set item | item in items :: item.id
  }

  function SectionIds(sections: seq<SourceSection>): set<Id> {
    set s | s in sections :: s.id
  }

  /** The item that a dictionary by id holds for an id: the last one given. */
  function ById(items: seq<Item>, id: Id): Option<Item> {
    if items == [] then None
    else if items[|items| - 1].id == id then Some(items[|items| - 1])
    else ById(items[..|items| - 1], id)
  }

  function BlueprintError(u: Uuids, run: Id, b: Blueprint, sections: seq<SourceSection>): Option<CompileError> {
    var modules, lessons := ItemsOf(b.items, ModuleItem), ItemsOf(b.items, LessonItem);
    if b.id != BlueprintId(u, run) || |b.items| != |sections| * 2 || IsBlank(b.title) then Some(OutputInvalid)
    else if |ItemIds(modules)| != |sections| || |lessons| != |sections|
      || (set item | item in b.items :: item.sourceSection) != SectionIds(sections)
    then Some(SourceEdgeInvalid)
    else if exists lesson | lesson in lessons ::
      || lesson.parent.None? || ById(modules, lesson.parent.value).None?
      || ById(modules, lesson.parent.value).value.sourceSection != lesson.sourceSection
    then Some(SourceEdgeInvalid)
    else None
  }

  /* ---------- generate ---------- */

  function TextNode(text: string): Json {
    Obj(map["type" := Str("text"), "text" := Str(text), "marks" := Arr([])])
  }

  function Paragraph(text: string): Json {
    Obj(map["type" := Str("paragraph"), "content" := Arr([TextNode(text)])])
  }

  function Heading(text: string): Json {
    Obj(map["type" := Str("heading"), "level" := Int(2), "content" := Arr([TextNode(text)])])
  }

  function ElementNode(e: Element): Json {
    if e.kind == HeadingElement then Heading(e.text) else Paragraph(e.text)
  }

  function ElementNodes(elements: seq<Element>): (ns: seq<Json>)
    ensures |ns| == |elements| && forall i :: 0 <= i < |ns| ==> ns[i] == ElementNode(elements[i])
  {
    seq(|elements|, i requires 0 <= i < |elements| => ElementNode(elements[i]))
  }

  /** The title, then the elements of the section in order. */
  function LessonDocument(title: string, elements: seq<Element>): Json {
    Obj(map["type" := Str("document"), "content" := Arr([Heading(title)] + ElementNodes(elements))])
  }

  predicate IsUsableText(text: string) {
    !IsBlank(text) && |text| <= MAX_TEXT
  }

  predicate HasUsableTexts(elements: seq<Element>) {
    forall e | e in elements :: IsUsableText(e.text)
  }

  /** The record whose hash a generated lesson carries. */
  function LessonProjection(u: Uuids, id: Id, item: Id, section: Id, title: string, document: Json): Json {
    Obj(map["schema_version" := Str("course-draft.v1"), "id" := Str(u.show(id)), "blueprint_lesson_item_id" := Str(u.show(item)),
            "source_section_id" := Str(u.show(section)), "title" := Str(title), "document" := document])
  }

  function ArtifactId(u: Uuids, run: Id, item: Id): Id {
    StableId(u, ["generated-lesson-artifact", u.show(run), u.show(item), Decimal(1)])
  }

  function EdgeKind(t: EdgeTarget): string {
    if t.BlueprintItem? then "blueprint_item" else "generated_lesson"
  }

  function TargetId(t: EdgeTarget): Id {
    if t.BlueprintItem? then t.item else t.artifact
  }

  function EdgeId(u: Uuids, run: Id, t: EdgeTarget): Id {
    StableId(u, ["generation-source-edge", u.show(run), EdgeKind(t), u.show(TargetId(t))])
  }

  /** The edges that `_persist_blueprint` and `_persist_lessons` store. */
  function ItemEdge(u: Uuids, run: Id, item: Item): SourceEdge {
    SourceEdge(EdgeId(u, run, BlueprintItem(item.id)), BlueprintItem(item.id), item.sourceSection)
  }

  function LessonEdge(u: Uuids, run: Id, lesson: GeneratedLesson): SourceEdge {
    SourceEdge(EdgeId(u, run, GeneratedArtifact(lesson.id)), GeneratedArtifact(lesson.id), lesson.sourceSection)
  }

  function ItemEdges(u: Uuids, run: Id, items: seq<Item>): (es: seq<SourceEdge>)
    ensures |es| == |items| && forall i :: 0 <= i < |es| ==> es[i] == ItemEdge(u, run, items[i])
  {
    seq(|items|, i requires 0 <= i < |items| => ItemEdge(u, run, items[i]))
  }

  function LessonEdges(u: Uuids, run: Id, lessons: seq<GeneratedLesson>): (es: seq<SourceEdge>)
    ensures |es| == |lessons| && forall i :: 0 <= i < |es| ==> es[i] == LessonEdge(u, run, lessons[i])
  {
    seq(|lessons|, i requires 0 <= i < |lessons| => LessonEdge(u, run, lessons[i]))
  }

  function LessonFrom(u: Uuids, digest: Json -> string, run: Id, item: Item, s: SourceSection): GeneratedLesson {
    var document, id := LessonDocument(item.title, s.elements), ArtifactId(u, run, item.id);
    GeneratedLesson(id, item.id, s.id, item.title, document, digest(LessonProjection(u, id, item.id, s.id, item.title, document)))
  }

  /** `sections_by_id.get(...)` */
  function SectionById(sections: seq<SourceSection>, id: Id): Option<SourceSection> {
    if sections == [] then None
    else if sections[|sections| - 1].id == id then Some(sections[|sections| - 1])
    else SectionById(sections[..|sections| - 1], id)
  }

  /** What stops the generation of one lesson. */
  function LessonError(item: Item, sections: seq<SourceSection>): Option<CompileError> {
    match SectionById(sections, item.sourceSection)
    case None => Some(SourceEdgeInvalid)
    case Some(s) =>
      if s.elements == [] then Some(SourceEdgeInvalid)
      else if !HasUsableTexts(s.elements) then Some(OutputInvalid)
      else if !IsDocument(LessonDocument(item.title, s.elements)) then Some(LifecycleErrorRaised)
      else None
  }

  function LessonsFrom(u: Uuids, digest: Json -> string, run: Id, items: seq<Item>, sections: seq<SourceSection>)
    : Result<seq<GeneratedLesson>, CompileError>
  {
    if items == [] then Ok([])
    else
      match LessonsFrom(u, digest, run, items[..|items| - 1], sections)
      case Err(e) => Err(e)
      case Ok(before) =>
        var item := items[|items| - 1];
        match LessonError(item, sections)
        case Some(e) => Err(e)
        case None => Ok(before + [LessonFrom(u, digest, run, item, SectionById(sections, item.sourceSection).value)])
  }

  function Generated(u: Uuids, digest: Json -> string, run: Id, b: Blueprint, sections: seq<SourceSection>)
    : Result<seq<GeneratedLesson>, CompileError>
  {
    var items := ItemsOf(b.items, LessonItem);
    if items == [] || |items| > MAX_SECTIONS then Err(OutputInvalid) else LessonsFrom(u, digest, run, items, sections)
  }

  lemma {:induction false} FirstErrorStays(u: Uuids, digest: Json -> string, run: Id, items: seq<Item>, sections: seq<SourceSection>, i: nat)
    requires i <= |items| && LessonsFrom(u, digest, run, items[..i], sections).Err?
    ensures LessonsFrom(u, digest, run, items, sections) == LessonsFrom(u, digest, run, items[..i], sections)
  {
    if i < |items| {
      var last := |items| - 1;
      assert items[..last][..i] == items[..i];
      FirstErrorStays(u, digest, run, items[..last], sections, i);
    } else {
      assert items[..i] == items;
    }
  }

  /** The exception that the document checker raises is no `ValueError`, so it leaves `generate` as it is. */
  method Generate(u: Uuids, digest: Json -> string, run: Id, b: Blueprint, sections: seq<SourceSection>)
    returns (r: Result<seq<GeneratedLesson>, CompileError>)
    ensures r == Generated(u, digest, run, b, sections)
  {
    hide IsDocument, LessonFrom, StableId;
    var items := ItemsOf(b.items, LessonItem);
    if items == [] || |items| > MAX_SECTIONS { return Err(OutputInvalid); }
    var lessons: seq<GeneratedLesson> := [];
    for i := 0 to |items|
      invariant LessonsFrom(u, digest, run, items[..i], sections) == Ok(lessons)
    {
      var item := items[i];
      assert items[..i + 1][..i] == items[..i];
      var section := SectionById(sections, item.sourceSection);
      if section.None? || section.value.elements == [] {
        FirstErrorStays(u, digest, run, items, sections, i + 1);
        return Err(SourceEdgeInvalid);
      }
      var nodes, ok := BuildNodes(item.title, section.value.elements);
      if !ok {
        FirstErrorStays(u, digest, run, items, sections, i + 1);
        return Err(OutputInvalid);
      }
      var document := Obj(map["type" := Str("document"), "content" := Arr(nodes)]);
      var verdict := ValidateRichTextDocument(document);
      if verdict != Accepted {
        FirstErrorStays(u, digest, run, items, sections, i + 1);
        return Err(LifecycleErrorRaised);
      }
      lessons := lessons + [LessonFrom(u, digest, run, item, section.value)];
    }
    assert items[..|items|] == items;
    r := Ok(lessons);
  }

  method BuildNodes(title: string, elements: seq<Element>) returns (nodes: seq<Json>, ok: bool)
    ensures ok <==> HasUsableTexts(elements)
    ensures ok ==> nodes == [Heading(title)] + ElementNodes(elements)
  {
    nodes := [Heading(title)];
    for i := 0 to |elements|
      invariant nodes == [Heading(title)] + ElementNodes(elements)[..i]
      invariant HasUsableTexts(elements[..i])
    {
      var text := elements[i].text;
      assert elements[i] in elements && elements[..i + 1] == elements[..i] + [elements[i]];
      if IsBlank(text) || |text| > MAX_TEXT { return nodes, false; }
      nodes := nodes + [if elements[i].kind == HeadingElement then Heading(text) else Paragraph(text)];
    }
    assert elements[..|elements|] == elements && ElementNodes(elements)[..|elements|] == ElementNodes(elements);
    ok := true;
  }

  lemma ElementFits(e: Element)
    ensures IsNode(ElementNode(e)) <==> IsUsableText(e.text)
  {
    hide IsNode, Heading, Paragraph, IsUsableText;
    HeadingFits(e.text);
    ParagraphFits(e.text);
  }

  /** A generated document is in the grammar exactly when the section has at most 499 elements and every text is usable. */
  lemma DocumentFits(title: string, elements: seq<Element>)
    ensures IsDocument(LessonDocument(title, elements)) <==> |elements| <= 499 && IsUsableText(title) && HasUsableTexts(elements)
  {
    hide IsNode, Heading, ElementNode, IsUsableText;
    var nodes := [Heading(title)] + ElementNodes(elements);
    HeadingFits(title);
    DocumentOfNodes(nodes);
    NodesFit(title, elements);
  }

  lemma NodesFit(title: string, elements: seq<Element>)
    ensures var nodes := [Heading(title)] + ElementNodes(elements);
      (forall i :: 0 <= i < |nodes| ==> IsNode(nodes[i])) <==> IsUsableText(title) && HasUsableTexts(elements)
  {
    hide IsNode, Heading, ElementNode, IsUsableText;
    var nodes := [Heading(title)] + ElementNodes(elements);
    HeadingFits(title);
    forall i | 0 <= i < |elements| ensures nodes[i + 1] == ElementNode(elements[i]) && (IsNode(nodes[i + 1]) <==> IsUsableText(elements[i].text)) {
      ElementFits(elements[i]);
    }
    if IsUsableText(title) && HasUsableTexts(elements) {
      forall i | 0 <= i < |nodes| ensures IsNode(nodes[i]) {
        if i > 0 { assert nodes[i] == nodes[i - 1 + 1] && elements[i - 1] in elements; }
      }
    }
    if forall i :: 0 <= i < |nodes| ==> IsNode(nodes[i]) {
      assert IsNode(nodes[0]);
      forall e | e in elements ensures IsUsableText(e.text) {
        var i :| 0 <= i < |elements| && elements[i] == e;
        assert IsNode(nodes[i + 1]);
      }
    }
  }

  /** A section of more than 499 usable elements leaves the generator with the checker's exception, not with an error of its own. */
  lemma TooManyElementsRaise(item: Item, sections: seq<SourceSection>)
    requires SectionById(sections, item.sourceSection).Some?
    ensures var elements := SectionById(sections, item.sourceSection).value.elements;
      elements != [] && HasUsableTexts(elements) && IsUsableText(item.title)
      ==> (LessonError(item, sections) == Some(LifecycleErrorRaised) <==> |elements| > 499)
  {
    hide IsDocument, LessonDocument;
    DocumentFits(item.title, SectionById(sections, item.sourceSection).value.elements);
  }

  lemma DocumentOfNodes(nodes: seq<Json>)
    ensures IsDocument(Obj(map["type" := Str("document"), "content" := Arr(nodes)]))
      <==> 1 <= |nodes| <= 500 && forall i :: 0 <= i < |nodes| ==> IsNode(nodes[i])
  {
    hide IsNode;
    var document := Obj(map["type" := Str("document"), "content" := Arr(nodes)]);
    assert document.fields.Keys == {"type", "content"};
  }

  lemma TextNodeFits(text: string)
    ensures IsTextNode(TextNode(text)) <==> IsUsableText(text)
  {
    assert TextNode(text).fields.Keys == {"type", "text", "marks"};
  }

  lemma HeadingFits(text: string)
    ensures IsNode(Heading(text)) <==> IsUsableText(text)
  {
    hide IsTextNode, TextNode;
    TextNodeFits(text);
    var heading := Heading(text);
    assert heading.fields.Keys == {"type", "level", "content"};
    assert heading.fields["content"].items[0] == TextNode(text);
  }

  lemma ParagraphFits(text: string)
    ensures IsNode(Paragraph(text)) <==> IsUsableText(text)
  {
    hide IsTextNode, TextNode;
    TextNodeFits(text);
    var paragraph := Paragraph(text);
    assert paragraph.fields.Keys == {"type", "content"};
    assert paragraph.fields["content"].items[0] == TextNode(text);
  }

  /* ---------- `_validate_lessons` ---------- */

  function LessonItemIds(lessons: seq<GeneratedLesson>): set<Id> {
    set l | l in lessons :: l.item
  }

  /** What is wrong with one lesson; a document outside the grammar raises the checker's own exception. */
  function LessonProblem(u: Uuids, digest: Json -> string, expected: seq<Item>, sections: seq<SourceSection>, l: GeneratedLesson)
    : Option<CompileError>
  {
    if l.sourceSection !in SectionIds(sections) || ById(expected, l.item).None?
      || l.sourceSection != ById(expected, l.item).value.sourceSection
      || l.contentHash != digest(LessonProjection(u, l.id, l.item, l.sourceSection, l.title, l.document))
    then Some(SourceEdgeInvalid)
    else if !IsDocument(l.document) then Some(LifecycleErrorRaised)
    else None
  }

  function FirstProblem(u: Uuids, digest: Json -> string, expected: seq<Item>, sections: seq<SourceSection>, lessons: seq<GeneratedLesson>)
    : Option<CompileError>
  {
    if lessons == [] then None
    else
      var before := FirstProblem(u, digest, expected, sections, lessons[..|lessons| - 1]);
      if before.Some? then before else LessonProblem(u, digest, expected, sections, lessons[|lessons| - 1])
  }

  function LessonsError(u: Uuids, digest: Json -> string, b: Blueprint, lessons: seq<GeneratedLesson>, sections: seq<SourceSection>)
    : Option<CompileError>
  {
    var expected := ItemsOf(b.items, LessonItem);
    if |lessons| != |ItemIds(expected)| || LessonItemIds(lessons) != ItemIds(expected) then Some(OutputInvalid)
    else FirstProblem(u, digest, expected, sections, lessons)
  }

  /* ---------- canonicalize ---------- */

  /** The lesson item of every module, unless an item has no parent or shares one. */
  function LessonsByParent(items: seq<Item>): Option<map<Id, Item>> {
    if items == [] then Some(map[])
    else
      var last := items[|items| - 1];
      match LessonsByParent(items[..|items| - 1])
      case None => None
      case Some(m) => if last.parent.None? || last.parent.value in m then None else Some(m[last.parent.value := last])
  }

  function ArtifactsByItem(artifacts: seq<GeneratedLesson>): map<Id, GeneratedLesson> {
    if artifacts == [] then map[]
    else ArtifactsByItem(artifacts[..|artifacts| - 1])[artifacts[|artifacts| - 1].item := artifacts[|artifacts| - 1]]
  }

  function EdgesByArtifact(edges: seq<SourceEdge>): map<Id, SourceEdge> {
    if edges == [] then map[]
    else
      var last, before := edges[|edges| - 1], EdgesByArtifact(edges[..|edges| - 1]);
      if last.target.GeneratedArtifact? then before[last.target.artifact := last] else before
  }

  predicate AreNumbered(modules: seq<Item>) {
    forall i :: 0 <= i < |modules| ==> modules[i].position == i + 1
  }

  /** The section of a module, through its lesson item, artifact and edge. */
  function DraftSection(m: Item, lessons: map<Id, Item>, artifacts: map<Id, GeneratedLesson>, edges: map<Id, SourceEdge>)
    : Result<SectionInput, CompileError>
  {
    if m.id !in lessons || lessons[m.id].id !in artifacts || artifacts[lessons[m.id].id].id !in edges then Err(ProvenanceInvalid)
    else
      var lesson := lessons[m.id];
      var artifact := artifacts[lesson.id];
      if m.sourceSection != lesson.sourceSection || lesson.sourceSection != artifact.sourceSection
        || artifact.sourceSection != edges[artifact.id].sourceSection
      then Err(ProvenanceInvalid)
      else if !IsDocument(artifact.document) then Err(SchemaInvalid)
      else Ok(DraftOf(m.title, m.position, artifact.title, artifact.document))
  }

  /** One section with one required lesson of one rich-text block. */
  function DraftOf(title: string, position: int, lessonTitle: string, document: Json): SectionInput {
    SectionInput(New, position, SectionBody(title),
                 [LessonInput(New, 1, LessonBody(lessonTitle, true), [BlockInput(New, 1, BlockBody("rich_text", document))])])
  }

  function DraftSections(modules: seq<Item>, lessons: map<Id, Item>, artifacts: map<Id, GeneratedLesson>, edges: map<Id, SourceEdge>)
    : Result<seq<SectionInput>, CompileError>
  {
    if modules == [] then Ok([])
    else
      match DraftSections(modules[..|modules| - 1], lessons, artifacts, edges)
      case Err(e) => Err(e)
      case Ok(before) =>
        match DraftSection(modules[|modules| - 1], lessons, artifacts, edges)
        case Err(e) => Err(e)
        case Ok(section) => Ok(before + [section])
  }

  function Canonicalized(modules: seq<Item>, lessonItems: seq<Item>, artifacts: seq<GeneratedLesson>, edges: seq<SourceEdge>)
    : Result<seq<SectionInput>, CompileError>
  {
    match LessonsByParent(lessonItems)
    case None => Err(ProvenanceInvalid)
    case Some(lessons) =>
      var byItem, byArtifact := ArtifactsByItem(artifacts), EdgesByArtifact(edges);
      if modules == [] || !AreNumbered(modules) || |lessonItems| != |modules| || |artifacts| != |modules|
        || |byItem| != |artifacts| || |edges| != |artifacts| || |byArtifact| != |artifacts|
      then Err(ProvenanceInvalid)
      else DraftSections(modules, lessons, byItem, byArtifact)
  }

  lemma {:induction false} DraftErrorStays(modules: seq<Item>, lessons: map<Id, Item>, artifacts: map<Id, GeneratedLesson>,
                                           edges: map<Id, SourceEdge>, i: nat)
    requires i <= |modules| && DraftSections(modules[..i], lessons, artifacts, edges).Err?
    ensures DraftSections(modules, lessons, artifacts, edges) == DraftSections(modules[..i], lessons, artifacts, edges)
  {
    if i < |modules| {
      var last := |modules| - 1;
      assert modules[..last][..i] == modules[..i];
      DraftErrorStays(modules[..last], lessons, artifacts, edges, i);
    } else {
      assert modules[..i] == modules;
    }
  }

  lemma {:induction false} NoLessonMapStays(items: seq<Item>, i: nat)
    requires i <= |items| && LessonsByParent(items[..i]).None?
    ensures LessonsByParent(items).None?
  {
    if i < |items| {
      assert items[..|items| - 1][..i] == items[..i];
      NoLessonMapStays(items[..|items| - 1], i);
    } else {
      assert items[..i] == items;
    }
  }

  /** The loops of `canonicalize_generation` that join the stored rows into curriculum sections. */
  method CanonicalizeSections(modules: seq<Item>, lessonItems: seq<Item>, artifacts: seq<GeneratedLesson>, edges: seq<SourceEdge>)
    returns (r: Result<seq<SectionInput>, CompileError>)
    ensures r == Canonicalized(modules, lessonItems, artifacts, edges)
  {
    hide IsDocument;
    var lessonsByParent: map<Id, Item> := map[];
    for i := 0 to |lessonItems|
      invariant LessonsByParent(lessonItems[..i]) == Some(lessonsByParent)
    {
      var item := lessonItems[i];
      assert lessonItems[..i + 1][..i] == lessonItems[..i];
      if item.parent.None? || item.parent.value in lessonsByParent {
        NoLessonMapStays(lessonItems, i + 1);
        return Err(ProvenanceInvalid);
      }
      lessonsByParent := lessonsByParent[item.parent.value := item];
    }
    assert lessonItems[..|lessonItems|] == lessonItems;
    var byItem, byArtifact := ArtifactsByItem(artifacts), EdgesByArtifact(edges);
    if modules == [] || (exists i :: 0 <= i < |modules| && modules[i].position != i + 1) || |lessonItems| != |modules|
      || |artifacts| != |modules| || |byItem| != |artifacts| || |edges| != |artifacts| || |byArtifact| != |artifacts| {
      return Err(ProvenanceInvalid);
    }
    var inputs: seq<SectionInput> := [];
    for i := 0 to |modules|
      invariant DraftSections(modules[..i], lessonsByParent, byItem, byArtifact) == Ok(inputs)
    {
      assert modules[..i + 1][..i] == modules[..i];
      var section := DraftSection(modules[i], lessonsByParent, byItem, byArtifact);
      if section.Err? {
        DraftErrorStays(modules, lessonsByParent, byItem, byArtifact, i + 1);
        return Err(section.error);
      }
      inputs := inputs + [section.value];
    }
    assert modules[..|modules|] == modules;
    r := Ok(inputs);
  }
}
