/** Normalisation of a decoded Jira issue into the flat ticket (`convertJiraIssue`). */
module Normalize {
  import opened Common
  import opened Text
  import opened Json
  import opened Schema

  /** One text node of a rich-text paragraph; a missing text decodes as "". */
  datatype TextNode = TextNode(text: string)

  /** One content block of the rich-text description. */
  datatype Block = Block(content: seq<TextNode>)

  datatype User = User(accountId: string, displayName: string)

  /** The issue fields the adapter decodes; absent objects decode to their
      zero value, absent pointers to `None`. */
  datatype IssueFields = IssueFields(
    summary: string,
    description: seq<Block>,
    statusName: string,
    assignee: Option<User>,
    reporter: Option<User>,
    created: string,
    updated: string)

  datatype JiraIssue = JiraIssue(id: string, key: string, fields: IssueFields)

  /** The metadata key that always carries the configured source label. */
  const SourceKey := "source"

  /** The texts of `nodes`, in order. */
  function NodeTexts(nodes: seq<TextNode>): (r: seq<string>)
    ensures |r| == |nodes|
  {
    if |nodes| == 0 then [] else NodeTexts(nodes[..|nodes| - 1]) + [nodes[|nodes| - 1].text]
  }

  /** Every text node of the document, in document order. */
  function DocumentTexts(blocks: seq<Block>): seq<string>
  {
    if |blocks| == 0 then []
    else DocumentTexts(blocks[..|blocks| - 1]) + NodeTexts(blocks[|blocks| - 1].content)
  }

  /** `xs` with the empty strings dropped, order kept. */
  function NonEmpty(xs: seq<string>): (r: seq<string>)
    ensures |r| <= |xs|
    ensures forall i :: 0 <= i < |r| ==> r[i] != ""
  {
    if |xs| == 0 then []
    else NonEmpty(xs[..|xs| - 1]) + (if xs[|xs| - 1] != "" then [xs[|xs| - 1]] else [])
  }

  /** The plain-text description: the non-empty text nodes, in document order,
      separated by one space. It is empty exactly when every text node is
      empty; in particular an empty content list gives "" and never an error. */
  function DescriptionText(blocks: seq<Block>): (r: string)
    ensures r == "" <==> AllEmpty(DocumentTexts(blocks))
  {
    var kept := NonEmpty(DocumentTexts(blocks));
    JoinEmptyIff(kept, " ");
    NonEmptyNil(DocumentTexts(blocks));
    Join(kept, " ")
  }

  /** The description flattening of `convertJiraIssue`, as the source writes
      it: a loop over the blocks and, inside it, over their text nodes. */
  method FlattenDescription(blocks: seq<Block>) returns (d: string)
    ensures d == DescriptionText(blocks)
  {
    var parts: seq<string> := [];
    var i := 0;
    while i < |blocks|
      invariant 0 <= i <= |blocks|
      invariant parts == NonEmpty(DocumentTexts(blocks[..i]))
    {
      var nodes := blocks[i].content;
      var j := 0;
      assert NodeTexts(nodes[..0]) == [];
      assert DocumentTexts(blocks[..i]) + NodeTexts(nodes[..0]) == DocumentTexts(blocks[..i]);
      while j < |nodes|
        invariant 0 <= j <= |nodes|
        invariant parts == NonEmpty(DocumentTexts(blocks[..i]) + NodeTexts(nodes[..j]))
      {
        var before := DocumentTexts(blocks[..i]) + NodeTexts(nodes[..j]);
        assert nodes[..j + 1][..j] == nodes[..j];
        assert DocumentTexts(blocks[..i]) + NodeTexts(nodes[..j + 1]) == before + [nodes[j].text];
        assert (before + [nodes[j].text])[..|before|] == before;
        if nodes[j].text != "" {
          parts := parts + [nodes[j].text];
        }
        j := j + 1;
      }
      assert nodes[..j] == nodes;
      assert blocks[..i + 1][..i] == blocks[..i];
      i := i + 1;
    }
    assert blocks[..i] == blocks;
    d := Join(parts, " ");
  }

  lemma {:induction false} NonEmptyAppend(a: seq<string>, b: seq<string>)
    ensures NonEmpty(a + b) == NonEmpty(a) + NonEmpty(b)
  {
    if |b| == 0 {
      assert a + b == a;
    } else {
      var b' := b[..|b| - 1];
      assert (a + b)[..|a + b| - 1] == a + b';
      NonEmptyAppend(a, b');
    }
  }

  lemma {:induction false} DocumentTextsAppend(a: seq<Block>, b: seq<Block>)
    ensures DocumentTexts(a + b) == DocumentTexts(a) + DocumentTexts(b)
  {
    if |b| == 0 {
      assert a + b == a;
    } else {
      var b' := b[..|b| - 1];
      assert (a + b)[..|a + b| - 1] == a + b';
      DocumentTextsAppend(a, b');
    }
  }

  predicate AllEmpty(xs: seq<string>)
  {
    forall i :: 0 <= i < |xs| ==> xs[i] == ""
  }

  /** Dropping empty strings leaves nothing exactly when every string was empty. */
  lemma {:induction false} NonEmptyNil(xs: seq<string>)
    ensures NonEmpty(xs) == [] <==> AllEmpty(xs)
  {
    if |xs| > 0 {
      var xs' := xs[..|xs| - 1];
      NonEmptyNil(xs');
      assert forall i :: 0 <= i < |xs'| ==> xs'[i] == xs[i];
    }
  }

  /** The description of two documents placed one after the other: the two
      descriptions separated by one space, or just the non-empty one. */
  lemma DescriptionConcat(a: seq<Block>, b: seq<Block>)
    ensures DescriptionText(a + b) ==
      if DescriptionText(a) == "" then DescriptionText(b)
      else if DescriptionText(b) == "" then DescriptionText(a)
      else DescriptionText(a) + " " + DescriptionText(b)
  {
    var na, nb := NonEmpty(DocumentTexts(a)), NonEmpty(DocumentTexts(b));
    DocumentTextsAppend(a, b);
    NonEmptyAppend(DocumentTexts(a), DocumentTexts(b));
    JoinEmptyIff(na, " ");
    JoinEmptyIff(nb, " ");
    if |na| == 0 {
      assert na + nb == nb;
    } else if |nb| == 0 {
      assert na + nb == na;
    } else {
      JoinConcat(na, nb, " ");
    }
  }

  /** A document of one paragraph holding one text node describes that text. */
  lemma DescriptionSingleNode(d: string)
    ensures DescriptionText([Block([TextNode(d)])]) == d
  {
    var blocks := [Block([TextNode(d)])];
    assert blocks[..0] == [];
    assert [TextNode(d)][..0] == [];
    assert DocumentTexts(blocks) == [d];
    assert [d][..0] == [];
  }

  /** `convertJiraIssue`: the flat ticket of one issue. */
  function ConvertIssue(issue: JiraIssue, source: string, parseTime: string -> Option<Time>): (t: Ticket)
    ensures t.id == issue.id && t.key == issue.key
    ensures t.title == issue.fields.summary && t.status == issue.fields.statusName
    ensures t.description == DescriptionText(issue.fields.description)
    ensures |t.assignees| <= 1
    ensures |t.assignees| == 1 <==> issue.fields.assignee.Some?
    ensures issue.fields.assignee.Some? ==> t.assignees[0] == issue.fields.assignee.value.accountId
    ensures issue.fields.reporter.Some? ==> t.reporter == issue.fields.reporter.value.accountId
    ensures issue.fields.reporter.None? ==> t.reporter == ""
    ensures t.metadata.Keys == {SourceKey} && t.metadata[SourceKey] == Str(source)
    ensures t.createdAt == parseTime(issue.fields.created).GetOr(ZeroTime)
    ensures t.updatedAt == parseTime(issue.fields.updated).GetOr(ZeroTime)
  {
    var f := issue.fields;
    Ticket(
      id := issue.id,
      key := issue.key,
      title := f.summary,
      description := DescriptionText(f.description),
      status := f.statusName,
      assignees := if f.assignee.Some? then [f.assignee.value.accountId] else [],
      reporter := if f.reporter.Some? then f.reporter.value.accountId else "",
      createdAt := parseTime(f.created).GetOr(ZeroTime),
      updatedAt := parseTime(f.updated).GetOr(ZeroTime),
      metadata := map[SourceKey := Str(source)])
  }
}
