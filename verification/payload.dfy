/** The `fields` maps that `Create` and `Update` send. Built-in keys are set
    first; caller-supplied fields are copied last and win on a collision. */
module Payload {
  import opened Common
  import opened Json
  import opened Schema
  import opened Normalize

  /** A text node of a rich-text document. */
  function TextNodeValue(d: string): Value
  {
    Object(map["type" := Str("text"), "text" := Str(d)])
  }

  /** A paragraph holding the given nodes. */
  function ParagraphValue(nodes: seq<Value>): Value
  {
    Object(map["type" := Str("paragraph"), "content" := List(nodes)])
  }

  /** A `doc` of version 1 holding the given blocks. */
  function DocValue(blocks: seq<Value>): Value
  {
    Object(map["type" := Str("doc"), "version" := Int(1), "content" := List(blocks)])
  }

  /** The rich-text document that carries a plain description: one paragraph
      holding one text node. Read back, it is exactly that structure. */
  function DescriptionDoc(d: string): (v: Value)
    ensures ReadDoc(v) == Some([Block([TextNode(d)])])
  {
    SingleNodeDocReads(d);
    DocValue([ParagraphValue([TextNodeValue(d)])])
  }

  /** The text of one text-node object. As with Go's decoder, a missing or
      null text, and a null node, read as the zero value ""; a value of
      another type is a decoding failure. */
  function ReadNode(v: Value): Option<TextNode>
  {
    match v
    case Null => Some(TextNode(""))
    case Object(m) =>
      if "text" !in m || m["text"].Null? then Some(TextNode(""))
      else if m["text"].Str? then Some(TextNode(m["text"].s))
      else None
    case _ => None
  }

  function ReadNodes(items: seq<Value>): Option<seq<TextNode>>
  {
    if |items| == 0 then Some([])
    else
      match (ReadNode(items[0]), ReadNodes(items[1..]))
      case (Some(n), Some(ns)) => Some([n] + ns)
      case _ => None
  }

  /** One content block; a missing or null content list, and a null block,
      read as empty. */
  function ReadBlock(v: Value): Option<Block>
  {
    match v
    case Null => Some(Block([]))
    case Object(m) =>
      if "content" !in m || m["content"].Null? then Some(Block([]))
      else if m["content"].List? then
        match ReadNodes(m["content"].items)
        case Some(ns) => Some(Block(ns))
        case None => None
      else None
    case _ => None
  }

  function ReadBlocks(items: seq<Value>): Option<seq<Block>>
  {
    if |items| == 0 then Some([])
    else
      match (ReadBlock(items[0]), ReadBlocks(items[1..]))
      case (Some(b), Some(bs)) => Some([b] + bs)
      case _ => None
  }

  /** Reads a rich-text document into the two-level block structure the
      normaliser flattens; a null document or content list reads as empty. */
  function ReadDoc(v: Value): Option<seq<Block>>
  {
    match v
    case Null => Some([])
    case Object(m) =>
      if "content" !in m || m["content"].Null? then Some([])
      else if m["content"].List? then ReadBlocks(m["content"].items)
      else None
    case _ => None
  }

  /** Wrapping a description and flattening it again gives the description
      back, the empty one included. */
  lemma DescriptionRoundTrip(d: string)
    ensures ReadDoc(DescriptionDoc(d)).Some?
    ensures DescriptionText(ReadDoc(DescriptionDoc(d)).value) == d
  {
    DescriptionSingleNode(d);
  }

  /** The one-paragraph, one-node document reads as one block of one node. */
  lemma SingleNodeDocReads(d: string)
    ensures ReadDoc(DocValue([ParagraphValue([TextNodeValue(d)])])) == Some([Block([TextNode(d)])])
  {
    var node := TextNodeValue(d);
    assert ReadNode(node) == Some(TextNode(d));
    assert [node][1..] == [];
    assert ReadNodes([]) == Some([]);
    assert [TextNode(d)] + [] == [TextNode(d)];
    assert ReadNodes([node]) == Some([TextNode(d)]);
    var para := ParagraphValue([node]);
    assert ReadBlock(para) == Some(Block([TextNode(d)]));
    assert [para][1..] == [];
    assert ReadBlocks([]) == Some([]);
    assert [Block([TextNode(d)])] + [] == [Block([TextNode(d)])];
    assert ReadBlocks([para]) == Some([Block([TextNode(d)])]);
  }

  /** The fields of `Create`: project key, summary and issue type always,
      the description document only for a non-empty description, and then
      every caller field. */
  function CreateFields(projectKey: string, issueType: string, input: CreateTicketInput): (fields: map<string, Value>)
    ensures fields.Keys == {"project", "summary", "issuetype"}
      + (if input.description != "" then {"description"} else {}) + input.fields.Keys
    ensures forall k :: k in input.fields ==> fields[k] == input.fields[k]
    ensures "summary" !in input.fields ==> fields["summary"] == Str(input.title)
    ensures "project" !in input.fields ==> fields["project"] == Object(map["key" := Str(projectKey)])
    ensures "issuetype" !in input.fields ==> fields["issuetype"] == Object(map["name" := Str(issueType)])
    ensures "description" !in input.fields && input.description != "" ==>
      fields["description"] == DescriptionDoc(input.description)
  {
    var base := map[
      "project" := Object(map["key" := Str(projectKey)]),
      "summary" := Str(input.title),
      "issuetype" := Object(map["name" := Str(issueType)])];
    var described := if input.description != "" then base["description" := DescriptionDoc(input.description)] else base;
    described + input.fields
  }

  /** An update changes the assignee only when the list is present and non-empty. */
  predicate ChangesAssignee(input: UpdateTicketInput)
  {
    input.assignees.Some? && |input.assignees.value| > 0
  }

  /** The fields of `Update`: each built-in key only for a present input
      field, the description even when it is "", the assignee as the first
      list entry only, and then every caller field. */
  function UpdateFields(input: UpdateTicketInput): (fields: map<string, Value>)
    ensures fields.Keys == (if input.title.Some? then {"summary"} else {})
      + (if input.description.Some? then {"description"} else {})
      + (if ChangesAssignee(input) then {"assignee"} else {})
      + input.fields.Keys
    ensures forall k :: k in input.fields ==> fields[k] == input.fields[k]
    ensures "summary" !in input.fields && input.title.Some? ==> fields["summary"] == Str(input.title.value)
    ensures "description" !in input.fields && input.description.Some? ==>
      fields["description"] == DescriptionDoc(input.description.value)
    ensures "assignee" !in input.fields && ChangesAssignee(input) ==>
      fields["assignee"] == Object(map["accountId" := Str(input.assignees.value[0])])
  {
    var titled: map<string, Value> := if input.title.Some? then map["summary" := Str(input.title.value)] else map[];
    var described := if input.description.Some? then titled["description" := DescriptionDoc(input.description.value)] else titled;
    var withAssignee := if ChangesAssignee(input) then
        described["assignee" := Object(map["accountId" := Str(input.assignees.value[0])])]
      else described;
    withAssignee + input.fields
  }

  /** The update payload is empty exactly when no title, no description, no
      assignee change and no caller field is given. */
  lemma UpdateFieldsEmptyIff(input: UpdateTicketInput)
    ensures |UpdateFields(input)| == 0 <==>
      input.title.None? && input.description.None? && !ChangesAssignee(input) && |input.fields| == 0
  {
    var fields := UpdateFields(input);
    assert |fields| == 0 <==> fields.Keys == {};
    assert |input.fields| == 0 <==> input.fields.Keys == {};
  }

  /** A present but empty assignee list changes nothing: the payload is the
      one of an absent list. */
  lemma EmptyAssigneesAreNoChange(input: UpdateTicketInput)
    requires input.assignees == Some([])
    ensures UpdateFields(input) == UpdateFields(input.(assignees := None))
  {
  }

  /** Only the first assignee is sent; the others are dropped. */
  lemma OnlyFirstAssigneeSent(input: UpdateTicketInput, first: string, others: seq<string>)
    requires input.assignees == Some([first] + others)
    ensures UpdateFields(input) == UpdateFields(input.(assignees := Some([first])))
  {
    var single := input.(assignees := Some([first]));
    assert ChangesAssignee(input) && ChangesAssignee(single);
    assert input.assignees.value[0] == first == single.assignees.value[0];
  }

  /** Create leaves out an empty description, while update sends it as an
      empty document. */
  lemma DescriptionAsymmetry(projectKey: string, issueType: string, title: string)
    ensures "description" !in CreateFields(projectKey, issueType, CreateTicketInput(title, "", map[]))
    ensures UpdateFields(UpdateTicketInput(None, Some(""), None, None, map[]))
      == map["description" := DescriptionDoc("")]
  {
  }

  /** The description an update sends reads back, once normalised, as the
      description the caller gave. */
  lemma UpdateDescriptionReadsBack(input: UpdateTicketInput)
    requires input.description.Some? && "description" !in input.fields
    ensures ReadDoc(UpdateFields(input)["description"]).Some?
    ensures DescriptionText(ReadDoc(UpdateFields(input)["description"]).value) == input.description.value
  {
    DescriptionRoundTrip(input.description.value);
  }

  /** The description a create sends reads back as the caller's description. */
  lemma CreateDescriptionReadsBack(projectKey: string, issueType: string, input: CreateTicketInput)
    requires input.description != "" && "description" !in input.fields
    ensures ReadDoc(CreateFields(projectKey, issueType, input)["description"]).Some?
    ensures DescriptionText(ReadDoc(CreateFields(projectKey, issueType, input)["description"]).value)
      == input.description
  {
    DescriptionRoundTrip(input.description);
  }
}
