/** The rich-text checker of the course validators, against the grammar it enforces. */
module RichText {
  import opened Prelude
  import opened CanonicalJson
  import opened PythonText

  const MAX_ERRORS := 100
  const MAX_TEXT := 10_000
  const ALLOWED_MARKS := {"strong", "emphasis", "code"}

  datatype FieldError = FieldError(path: string, code: string)

  /* ---------- the grammar ---------- */

  predicate IsRecord(j: Json, keys: set<string>, kind: string) {
    j.Obj? && j.fields.Keys == keys && "type" in keys && j.fields["type"] == Str(kind)
  }

  predicate IsListOf(j: Json, maximum: nat) {
    j.Arr? && 1 <= |j.items| <= maximum
  }

  predicate IsBoundedText(j: Json, maximum: nat) {
    j.Str? && !IsBlank(j.s) && |j.s| <= maximum
  }

  predicate AreMarks(j: Json) {
    j.Arr? && |j.items| <= 3
    && (forall mark | mark in j.items :: mark.Str? && mark.s in ALLOWED_MARKS)
    && Distinct(j.items)
  }

  predicate IsTextNode(j: Json) {
    IsRecord(j, {"type", "text", "marks"}, "text") && IsBoundedText(j.fields["text"], MAX_TEXT) && AreMarks(j.fields["marks"])
  }

  predicate IsInline(j: Json, maximum: nat) {
    IsListOf(j, maximum) && forall i :: 0 <= i < |j.items| ==> IsTextNode(j.items[i])
  }

  predicate IsParagraph(j: Json) {
    IsRecord(j, {"type", "content"}, "paragraph") && IsInline(j.fields["content"], 500)
  }

  predicate IsHeading(j: Json) {
    IsRecord(j, {"type", "level", "content"}, "heading")
    && j.fields["level"].Int? && 2 <= j.fields["level"].n <= 4
    && IsInline(j.fields["content"], 100)
  }

  predicate IsListItem(j: Json) {
    IsRecord(j, {"type", "content"}, "list_item")
    && IsListOf(j.fields["content"], 20)
    && forall i :: 0 <= i < |j.fields["content"].items| ==> IsParagraph(j.fields["content"].items[i])
  }

  predicate IsList(j: Json, kind: string) {
    IsRecord(j, {"type", "items"}, kind)
    && IsListOf(j.fields["items"], 100)
    && forall i :: 0 <= i < |j.fields["items"].items| ==> IsListItem(j.fields["items"].items[i])
  }

  predicate IsNode(j: Json) {
    IsParagraph(j) || IsHeading(j) || IsList(j, "bullet_list") || IsList(j, "ordered_list")
  }

  predicate IsDocument(j: Json) {
    IsRecord(j, {"type", "content"}, "document")
    && IsListOf(j.fields["content"], 500)
    && forall i :: 0 <= i < |j.fields["content"].items| ==> IsNode(j.fields["content"].items[i])
  }

  /* ---------- the collector ---------- */

  /** `after` is `before` with nothing added exactly when `ok`, until the collector is full. */
  predicate Records(before: seq<FieldError>, after: seq<FieldError>, ok: bool) {
    before <= after && |after| <= MAX_ERRORS
    && (after == before <==> ok || |before| == MAX_ERRORS)
  }

  class Collector {
    var errors: seq<FieldError>

    constructor ()
      ensures errors == []
    {
      errors := [];
    }

    method Add(path: string, code: string)
      requires |errors| <= MAX_ERRORS
      modifies this
      ensures Records(old(errors), errors, false)
    {
      if |errors| < MAX_ERRORS {
        errors := errors + [FieldError(path, code)];
      }
    }

    method AddUnless(ok: bool, path: string, code: string)
      requires |errors| <= MAX_ERRORS
      modifies this
      ensures Records(old(errors), errors, ok)
    {
      if !ok {
        Add(path, code);
      }
    }
  }

  function Get(fields: map<string, Json>, key: string): Json {
    if key in fields then fields[key] else Null
  }

  function Indexed(path: string, index: nat): string {
    path + "[" + Digits(index) + "]"
  }

  /* ---------- the checker ---------- */

  method Mapping(value: Json, path: string, errors: Collector) returns (fields: Option<map<string, Json>>)
    requires |errors.errors| <= MAX_ERRORS
    modifies errors
    ensures fields == if value.Obj? then Some(value.fields) else None
    ensures Records(old(errors.errors), errors.errors, value.Obj?)
  {
    if !value.Obj? {
      errors.Add(path, "invalid_type");
      return None;
    }
    return Some(value.fields);
  }

  method Array(value: Json, path: string, errors: Collector) returns (items: Option<seq<Json>>)
    requires |errors.errors| <= MAX_ERRORS
    modifies errors
    ensures items == if value.Arr? then Some(value.items) else None
    ensures Records(old(errors.errors), errors.errors, value.Arr?)
  {
    if !value.Arr? {
      errors.Add(path, "invalid_type");
      return None;
    }
    return Some(value.items);
  }

  /** `required` lists its names in the order `sorted` gives. */
  method ExactKeys(fields: map<string, Json>, required: seq<string>, path: string, errors: Collector)
    requires |errors.errors| <= MAX_ERRORS
    modifies errors
    ensures Records(old(errors.errors), errors.errors, fields.Keys == set k | k in required)
  {
    for i := 0 to |required|
      invariant Records(old(errors.errors), errors.errors, forall j :: 0 <= j < i ==> required[j] in fields)
    {
      errors.AddUnless(required[i] in fields, path + "." + required[i], "required");
    }
    errors.AddUnless(forall k | k in fields :: k in required, path + ".*", "unknown");
    assert fields.Keys == (set k | k in required)
      <==> (forall j :: 0 <= j < |required| ==> required[j] in fields) && (forall k | k in fields :: k in required);
  }

  method BoundedText(value: Json, path: string, maximum: nat, errors: Collector)
    requires |errors.errors| <= MAX_ERRORS
    modifies errors
    ensures Records(old(errors.errors), errors.errors, IsBoundedText(value, maximum))
  {
    errors.AddUnless(value.Str? && !IsBlank(value.s) && |value.s| <= maximum, path, "invalid_text");
  }

  method ValidateMarks(value: Json, path: string, errors: Collector)
    requires |errors.errors| <= MAX_ERRORS
    modifies errors
    ensures Records(old(errors.errors), errors.errors, AreMarks(value))
  {
    var marks := Array(value, path, errors);
    if marks.None? { return; }
    errors.AddUnless(|marks.value| <= 3, path, "too_many");
    errors.AddUnless(forall mark | mark in marks.value :: mark.Str? && mark.s in ALLOWED_MARKS, path, "unsupported");
    errors.AddUnless(Distinct(StringsOf(marks.value)), path, "duplicate");
    if forall mark | mark in marks.value :: mark.Str? {
      StringsOfMarks(marks.value);
    }
  }

  function StringsOf(items: seq<Json>): seq<string> {
    if items == [] then []
    else
      var last := items[|items| - 1];
      StringsOf(items[..|items| - 1]) + (if last.Str? then [last.s] else [])
  }

  lemma {:induction false} StringsOfMarks(items: seq<Json>)
    requires forall x | x in items :: x.Str?
    ensures |StringsOf(items)| == |items| && forall i :: 0 <= i < |items| ==> items[i] == Str(StringsOf(items)[i])
    ensures Distinct(StringsOf(items)) <==> Distinct(items)
  {
    if items != [] {
      StringsOfMarks(items[..|items| - 1]);
    }
  }

  method ValidateTextNode(value: Json, path: string, errors: Collector)
    requires |errors.errors| <= MAX_ERRORS
    modifies errors
    ensures Records(old(errors.errors), errors.errors, IsTextNode(value))
  {
    var node := Mapping(value, path, errors);
    if node.None? { return; }
    ExactKeys(node.value, ["marks", "text", "type"], path, errors);
    errors.AddUnless(Get(node.value, "type") == Str("text"), path + ".type", "unsupported");
    BoundedText(Get(node.value, "text"), path + ".text", MAX_TEXT, errors);
    ValidateMarks(Get(node.value, "marks"), path + ".marks", errors);
  }

  method ValidateInlineContent(value: Json, path: string, maximum: nat, errors: Collector)
    requires |errors.errors| <= MAX_ERRORS
    modifies errors
    ensures Records(old(errors.errors), errors.errors, IsInline(value, maximum))
  {
    var content := Array(value, path, errors);
    if content.None? { return; }
    var items := content.value;
    errors.AddUnless(1 <= |items| <= maximum, path, "invalid_length");
    hide IsTextNode;
    for i := 0 to Visited(|items|, maximum)
      invariant Records(old(errors.errors), errors.errors,
                        1 <= |items| <= maximum && forall j :: 0 <= j < i ==> IsTextNode(items[j]))
    {
      ValidateTextNode(items[i], Indexed(path, i), errors);
    }
  }

  /** The length of `content[: maximum + 1]`. */
  function Visited(length: nat, maximum: nat): nat {
    if length <= maximum then length else maximum + 1
  }

  method ValidateParagraph(value: Json, path: string, errors: Collector)
    requires |errors.errors| <= MAX_ERRORS
    modifies errors
    ensures Records(old(errors.errors), errors.errors, IsParagraph(value))
  {
    var node := Mapping(value, path, errors);
    if node.None? { return; }
    ExactKeys(node.value, ["content", "type"], path, errors);
    errors.AddUnless(Get(node.value, "type") == Str("paragraph"), path + ".type", "unsupported");
    ValidateInlineContent(Get(node.value, "content"), path + ".content", 500, errors);
  }

  method ValidateHeading(value: Json, path: string, errors: Collector)
    requires |errors.errors| <= MAX_ERRORS
    modifies errors
    ensures Records(old(errors.errors), errors.errors, IsHeading(value))
  {
    var node := Mapping(value, path, errors);
    if node.None? { return; }
    ExactKeys(node.value, ["content", "level", "type"], path, errors);
    errors.AddUnless(Get(node.value, "type") == Str("heading"), path + ".type", "unsupported");
    var level := Get(node.value, "level");
    errors.AddUnless(level.Int? && 2 <= level.n <= 4, path + ".level", "invalid_heading");
    ValidateInlineContent(Get(node.value, "content"), path + ".content", 100, errors);
  }

  method ValidateListItem(value: Json, path: string, errors: Collector)
    requires |errors.errors| <= MAX_ERRORS
    modifies errors
    ensures Records(old(errors.errors), errors.errors, IsListItem(value))
  {
    var node := Mapping(value, path, errors);
    if node.None? { return; }
    ExactKeys(node.value, ["content", "type"], path, errors);
    errors.AddUnless(Get(node.value, "type") == Str("list_item"), path + ".type", "unsupported");
    var content := Array(Get(node.value, "content"), path + ".content", errors);
    if content.None? { return; }
    var items := content.value;
    errors.AddUnless(1 <= |items| <= 20, path + ".content", "invalid_length");
    ghost var head := node.value.Keys == {"type", "content"} && Get(node.value, "type") == Str("list_item");
    hide IsParagraph;
    for i := 0 to Visited(|items|, 20)
      invariant Records(old(errors.errors), errors.errors,
                        head && 1 <= |items| <= 20 && forall j :: 0 <= j < i ==> IsParagraph(items[j]))
    {
      ValidateParagraph(items[i], Indexed(path + ".content", i), errors);
    }
  }

  method ValidateList(value: Json, path: string, kind: string, errors: Collector)
    requires |errors.errors| <= MAX_ERRORS
    modifies errors
    ensures Records(old(errors.errors), errors.errors, IsList(value, kind))
  {
    var node := Mapping(value, path, errors);
    if node.None? { return; }
    ExactKeys(node.value, ["items", "type"], path, errors);
    errors.AddUnless(Get(node.value, "type") == Str(kind), path + ".type", "unsupported");
    var entries := Array(Get(node.value, "items"), path + ".items", errors);
    if entries.None? { return; }
    var items := entries.value;
    errors.AddUnless(1 <= |items| <= 100, path + ".items", "invalid_length");
    ghost var head := node.value.Keys == {"type", "items"} && Get(node.value, "type") == Str(kind);
    hide IsListItem;
    for i := 0 to Visited(|items|, 100)
      invariant Records(old(errors.errors), errors.errors,
                        head && 1 <= |items| <= 100 && forall j :: 0 <= j < i ==> IsListItem(items[j]))
    {
      ValidateListItem(items[i], Indexed(path + ".items", i), errors);
    }
  }

  /** A value Python cannot hash: looking its node type up in a set raises TypeError. */
  predicate IsUnhashable(j: Json) {
    j.Arr? || j.Obj? || (j.Foreign? && !j.hashable)
  }

  predicate HasUnhashableType(item: Json) {
    item.Obj? && "type" in item.fields && IsUnhashable(item.fields["type"])
  }

  /** One of the nodes the checker visits has an unhashable type. */
  predicate RaisesTypeError(value: Json) {
    value.Obj? && "content" in value.fields && value.fields["content"].Arr?
    && exists i :: 0 <= i < Visited(|value.fields["content"].items|, 500) && HasUnhashableType(value.fields["content"].items[i])
  }

  method ValidateNode(value: Json, path: string, errors: Collector) returns (typeError: bool)
    requires |errors.errors| <= MAX_ERRORS
    modifies errors
    ensures typeError <==> HasUnhashableType(value)
    ensures Records(old(errors.errors), errors.errors, typeError || IsNode(value))
  {
    var node := Mapping(value, path, errors);
    if node.None? { return false; }
    var kind := Get(node.value, "type");
    if kind == Str("paragraph") {
      ValidateParagraph(value, path, errors);
    } else if kind == Str("heading") {
      ValidateHeading(value, path, errors);
    } else if IsUnhashable(kind) {
      return true;
    } else if kind == Str("bullet_list") || kind == Str("ordered_list") {
      ValidateList(value, path, kind.s, errors);
    } else {
      errors.Add(path + ".type", "unsupported");
    }
    return false;
  }

  method ValidateNodes(items: seq<Json>, path: string, errors: Collector) returns (typeError: bool)
    requires |errors.errors| <= MAX_ERRORS
    modifies errors
    ensures typeError <==> exists i :: 0 <= i < Visited(|items|, 500) && HasUnhashableType(items[i])
    ensures !typeError ==>
      Records(old(errors.errors), errors.errors, forall j :: 0 <= j < Visited(|items|, 500) ==> IsNode(items[j]))
  {
    hide IsNode;
    for i := 0 to Visited(|items|, 500)
      invariant Records(old(errors.errors), errors.errors, forall j :: 0 <= j < i ==> IsNode(items[j]))
      invariant forall j :: 0 <= j < i ==> !HasUnhashableType(items[j])
    {
      typeError := ValidateNode(items[i], Indexed(path, i), errors);
      if typeError { return; }
    }
    return false;
  }

  method ValidateDocument(value: Json, path: string, errors: Collector) returns (typeError: bool)
    requires |errors.errors| <= MAX_ERRORS
    modifies errors
    ensures typeError <==> RaisesTypeError(value)
    ensures !typeError ==> Records(old(errors.errors), errors.errors, IsDocument(value))
  {
    var document := Mapping(value, path, errors);
    if document.None? { return false; }
    ExactKeys(document.value, ["content", "type"], path, errors);
    errors.AddUnless(Get(document.value, "type") == Str("document"), path + ".type", "unsupported");
    var content := Array(Get(document.value, "content"), path + ".content", errors);
    if content.None? { return false; }
    var items := content.value;
    errors.AddUnless(1 <= |items| <= 500, path + ".content", "invalid_length");
    typeError := ValidateNodes(items, path + ".content", errors);
  }

  datatype Verdict = Accepted | Rejected(errors: seq<FieldError>) | TypeErrorRaised

  /** `validate_rich_text_document`: accepts the grammar, and reports every other document it can look at. */
  method ValidateRichTextDocument(value: Json) returns (r: Verdict)
    ensures r.Accepted? <==> IsDocument(value)
    ensures r.TypeErrorRaised? <==> RaisesTypeError(value)
    ensures r.Rejected? ==> 1 <= |r.errors| <= MAX_ERRORS
  {
    var collector := new Collector();
    var typeError := ValidateDocument(value, "document", collector);
    if RaisesTypeError(value) { DocumentsAreHashable(value); }
    if typeError { return TypeErrorRaised; }
    return if collector.errors == [] then Accepted else Rejected(collector.errors);
  }

  lemma DocumentsAreHashable(value: Json)
    requires RaisesTypeError(value)
    ensures !IsDocument(value)
  {
    var items := value.fields["content"].items;
    var i :| 0 <= i < Visited(|items|, 500) && HasUnhashableType(items[i]);
    assert !IsNode(items[i]);
  }

  /** A document outside the grammar that is not reported but raises, when it reaches the checker untyped. */
  lemma UnhashableTypeIsNotReported()
    ensures RaisesTypeError(Obj(map["type" := Str("document"), "content" := Arr([Obj(map["type" := Arr([])])])]))
  {
    var item := Obj(map["type" := Arr([])]);
    var content := Arr([item]);
    assert HasUnhashableType(content.items[0]);
  }

  /* ---------- every accepted document can be hashed ---------- */

  lemma TextNodeInSubset(j: Json)
    requires IsTextNode(j)
    ensures InF002Subset(j)
  {
    forall k | k in j.fields ensures InF002Subset(j.fields[k]) {
      assert k in {"type", "text", "marks"};
    }
  }

  lemma InlineInSubset(j: Json, maximum: nat)
    requires IsInline(j, maximum)
    ensures InF002Subset(j)
  {
    forall x | x in j.items ensures InF002Subset(x) { TextNodeInSubset(x); }
  }

  lemma ParagraphInSubset(j: Json)
    requires IsParagraph(j)
    ensures InF002Subset(j)
  {
    InlineInSubset(j.fields["content"], 500);
    forall k | k in j.fields ensures InF002Subset(j.fields[k]) {
      assert k in {"type", "content"};
    }
  }

  lemma ListItemInSubset(j: Json)
    requires IsListItem(j)
    ensures InF002Subset(j)
  {
    forall x | x in j.fields["content"].items ensures InF002Subset(x) { ParagraphInSubset(x); }
    forall k | k in j.fields ensures InF002Subset(j.fields[k]) {
      assert k in {"type", "content"};
    }
  }

  lemma NodeInSubset(j: Json)
    requires IsNode(j)
    ensures InF002Subset(j)
  {
    if IsParagraph(j) {
      ParagraphInSubset(j);
    } else if IsHeading(j) {
      InlineInSubset(j.fields["content"], 100);
      forall k | k in j.fields ensures InF002Subset(j.fields[k]) {
        assert k in {"type", "level", "content"};
      }
    } else {
      forall x | x in j.fields["items"].items ensures InF002Subset(x) { ListItemInSubset(x); }
      forall k | k in j.fields ensures InF002Subset(j.fields[k]) {
        assert k in {"type", "items"};
      }
    }
  }

  /** Whatever the checker accepts has a canonical text, hence a content hash. */
  lemma AcceptedDocumentsAreHashed(j: Json)
    requires IsDocument(j)
    ensures CanonicalText(j).Ok?
  {
    forall x | x in j.fields["content"].items ensures InF002Subset(x) { NodeInSubset(x); }
    forall k | k in j.fields ensures InF002Subset(j.fields[k]) {
      assert k in {"type", "content"};
    }
  }
}
