/** Concrete cases: the query strings, escapes, descriptions and transition
    choices the repository's own tests expect, stated against the model. */
module Examples {
  import opened Common
  import opened Text
  import opened Json
  import opened Schema
  import opened Jql
  import opened Normalize
  import opened Transitions
  import opened ProviderConfig
  import opened Payload
  import opened Provider

  function NoFilter(): TicketQuery
  {
    TicketQuery("", [], [], "", 0)
  }

  /** A quote-free value is quoted by wrapping it in double quotes. */
  lemma QuoteQuoteFree(s: string)
    requires '"' !in s
    ensures Quote(s) == "\"" + s + "\""
  {
    EscapeQuoteFree(s);
  }

  lemma InListOne(a: string)
    requires '"' !in a
    ensures InList([a]) == "\"" + a + "\""
  {
    QuoteQuoteFree(a);
    assert QuoteAll([a]) == [Quote(a)];
  }

  lemma InListTwo(a: string, b: string)
    requires '"' !in a && '"' !in b
    ensures InList([a, b]) == "\"" + a + "\"" + "," + ("\"" + b + "\"")
  {
    QuoteQuoteFree(a);
    QuoteQuoteFree(b);
    var q := QuoteAll([a, b]);
    assert q == [Quote(a), Quote(b)];
    assert q[1..] == [Quote(b)];
    assert Join(q[1..], ",") == Quote(b);
  }

  /** The compiled query with its clauses given as already-built pieces. */
  lemma Assembled(q: TicketQuery, key: string, t: string, st: string, a: string, r: string)
    requires t == Conjunct(q.query != "", TextClause(q.query))
    requires st == Conjunct(|q.statuses| > 0, StatusClause(q.statuses))
    requires a == Conjunct(|q.assignees| > 0, AssigneeClause(q.assignees))
    requires r == Conjunct(q.reporter != "", ReporterClause(q.reporter))
    ensures BuildJQL(q, key) == "project = " + key + (t + st + a + r) + " ORDER BY key DESC"
  {
    BuildJQLLayout(q, key);
  }

  /** A text search adds one quoted `text ~` clause. */
  lemma QueryWithText(key: string, text: string)
    requires text != "" && '"' !in text
    ensures BuildJQL(NoFilter().(query := text), key)
      == "project = " + key + (" AND " + ("text ~ " + ("\"" + text + "\""))) + " ORDER BY key DESC"
  {
    QuoteQuoteFree(text);
    var t := " AND " + ("text ~ " + ("\"" + text + "\""));
    Assembled(NoFilter().(query := text), key, t, "", "", "");
    assert t + "" + "" + "" == t;
  }

  /** Two statuses become one `status IN` list, in the caller's order. */
  lemma QueryWithStatuses(key: string, a: string, b: string)
    requires '"' !in a && '"' !in b
    ensures BuildJQL(NoFilter().(statuses := [a, b]), key)
      == "project = " + key
         + (" AND " + ("status IN (" + ("\"" + a + "\"" + "," + ("\"" + b + "\"")) + ")"))
         + " ORDER BY key DESC"
  {
    InListTwo(a, b);
    var st := " AND " + ("status IN (" + ("\"" + a + "\"" + "," + ("\"" + b + "\"")) + ")");
    Assembled(NoFilter().(statuses := [a, b]), key, "", st, "", "");
    assert "" + st + "" + "" == st;
  }

  /** Two assignees become one `assignee IN` list, in the caller's order. */
  lemma QueryWithAssignees(key: string, a: string, b: string)
    requires '"' !in a && '"' !in b
    ensures BuildJQL(NoFilter().(assignees := [a, b]), key)
      == "project = " + key
         + (" AND " + ("assignee IN (" + ("\"" + a + "\"" + "," + ("\"" + b + "\"")) + ")"))
         + " ORDER BY key DESC"
  {
    InListTwo(a, b);
    var ac := " AND " + ("assignee IN (" + ("\"" + a + "\"" + "," + ("\"" + b + "\"")) + ")");
    Assembled(NoFilter().(assignees := [a, b]), key, "", "", ac, "");
    assert "" + "" + ac + "" == ac;
  }

  /** A reporter adds one quoted equality clause. */
  lemma QueryWithReporter(key: string, r: string)
    requires r != "" && '"' !in r
    ensures BuildJQL(NoFilter().(reporter := r), key)
      == "project = " + key + (" AND " + ("reporter = " + ("\"" + r + "\""))) + " ORDER BY key DESC"
  {
    QuoteQuoteFree(r);
    var rc := " AND " + ("reporter = " + ("\"" + r + "\""));
    Assembled(NoFilter().(reporter := r), key, "", "", "", rc);
    assert "" + "" + "" + rc == rc;
  }

  /** Several filters appear in the fixed order text, status, assignee. */
  lemma QueryWithSeveralFilters(q: TicketQuery, key: string, text: string, status: string, assignee: string)
    requires q == TicketQuery(text, [status], [assignee], "", 0)
    requires text != "" && '"' !in text && '"' !in status && '"' !in assignee
    ensures BuildJQL(q, key)
      == "project = " + key
         + (  (" AND " + ("text ~ " + ("\"" + text + "\"")))
            + (" AND " + ("status IN (" + ("\"" + status + "\"") + ")"))
            + (" AND " + ("assignee IN (" + ("\"" + assignee + "\"") + ")")))
         + " ORDER BY key DESC"
  {
    QuoteQuoteFree(text);
    InListOne(status);
    InListOne(assignee);
    var t := " AND " + ("text ~ " + ("\"" + text + "\""));
    var st := " AND " + ("status IN (" + ("\"" + status + "\"") + ")");
    var ac := " AND " + ("assignee IN (" + ("\"" + assignee + "\"") + ")");
    Assembled(q, key, t, st, ac, "");
    assert t + st + ac + "" == t + st + ac;
  }

  /** A word in double quotes after a quote-free prefix: each of its two
      quotes gets a backslash. */
  lemma EscapeQuotedWord(prefix: string, word: string)
    requires '"' !in prefix && '"' !in word
    ensures Escape(prefix + "\"" + word + "\"") == prefix + "\\\"" + word + "\\\""
  {
    EscapeQuoteFree(prefix);
    EscapeQuoteFree(word);
    assert Escape("\"") == "\\\"" by {
      assert "\""[1..] == "";
    }
    EscapeAppend(prefix, "\"");
    EscapeAppend(prefix + "\"", word);
    EscapeAppend(prefix + "\"" + word, "\"");
  }

  /** The two text nodes of one paragraph are joined by a space. */
  lemma TwoParagraphDescription()
    ensures DescriptionText([Block([TextNode("First paragraph"), TextNode("Second paragraph")])])
      == "First paragraph Second paragraph"
  {
    var nodes := [TextNode("First paragraph"), TextNode("Second paragraph")];
    assert nodes[..1] == [TextNode("First paragraph")];
    assert nodes[..1][..0] == [];
    var blocks := [Block(nodes)];
    assert blocks[..0] == [];
    assert DocumentTexts(blocks) == ["First paragraph", "Second paragraph"];
    var texts := ["First paragraph", "Second paragraph"];
    assert texts[..1] == ["First paragraph"];
    assert texts[..1][..0] == [];
    assert NonEmpty(texts) == texts;
  }

  function Offered(): seq<Transition>
  {
    [Transition("11", "To Do", "To Do"),
     Transition("21", "In Progress", "In Progress"),
     Transition("31", "Done", "Done")]
  }

  /** The transition to "In Progress" is the second one offered, also when
      the target is written in another letter case. */
  lemma ChooseInProgress()
    ensures SelectTransition(Offered(), "In Progress") == Some("21")
    ensures SelectTransition(Offered(), "in progress") == Some("21")
  {
    assert IsFirstMatch(Offered(), "In Progress", 1);
    SelectIgnoresCase(Offered(), "In Progress", "in progress");
  }

  /** No transition leads to an unknown status. */
  lemma ChooseNothing()
    ensures SelectTransition(Offered(), "Blocked") == None
  {
    assert !LeadsTo(Offered()[0], "Blocked");
    assert !LeadsTo(Offered()[1], "Blocked");
    assert !LeadsTo(Offered()[2], "Blocked");
  }

  /** A first match with an empty id shadows a later match with an id. */
  lemma EmptyIdShadowsLaterMatch()
    ensures SelectTransition([Transition("", "Start", "Done"), Transition("41", "Finish", "Done")], "Done") == None
  {
    assert IsFirstMatch([Transition("", "Start", "Done"), Transition("41", "Finish", "Done")], "Done", 0);
  }

  /** A status-only update against a server that offers the transition and
      accepts it: the transitions are fetched, one is posted, the issue is
      fetched, and nothing is edited. */
  lemma StatusOnlyUpdate(p: Provider, issue: JiraIssue)
    ensures
      var input := UpdateTicketInput(None, None, Some("In Progress"), None, map[]);
      var replies := [
        Response(200, "", TransitionsBody(Offered())),
        Response(204, "", Undecodable),
        Response(200, "", IssueBody(issue))];
      Update(p, "PROJ-1", input, replies) == Exchange(
        [GetTransitions("PROJ-1"), PostTransition("PROJ-1", "21"), GetIssue("PROJ-1")],
        Success(ConvertIssue(issue, p.cfg.source, p.parseTime)))
  {
    var input := UpdateTicketInput(None, None, Some("In Progress"), None, map[]);
    var replies := [
      Response(200, "", TransitionsBody(Offered())),
      Response(204, "", Undecodable),
      Response(200, "", IssueBody(issue))];
    UpdateFieldsEmptyIff(input);
    ChooseInProgress();
    assert Later(replies, 1) == replies[1..];
    assert StatusChange(input, "PROJ-1", replies)
      == Step([GetTransitions("PROJ-1"), PostTransition("PROJ-1", "21")], Pass);
    assert Later(replies, 2) == [replies[2]];
    assert EditFields("PROJ-1", UpdateFields(input), Later(replies, 2)) == Step([], Pass);
    assert Later(Later(replies, 2), 0) == [replies[2]];
  }

  /** An update whose edit is answered 404 reports the issue as not found. */
  lemma EditOfMissingIssue(p: Provider)
    ensures
      var input := UpdateTicketInput(Some("Test"), None, None, None, map[]);
      Update(p, "NOTFOUND", input, [Response(404, "", Undecodable)]) == Exchange(
        [EditIssue("NOTFOUND", map["summary" := Str("Test")])], Failure(NotFound))
  {
    var input := UpdateTicketInput(Some("Test"), None, None, None, map[]);
    assert UpdateFields(input) == map["summary" := Str("Test")];
  }

  /** A create answered 201 fetches the new issue by its key. */
  lemma CreateThenFetch(p: Provider, issue: JiraIssue)
    ensures
      var input := CreateTicketInput("Test ticket", "", map[]);
      var replies := [Response(201, "", CreatedRef("10001", "PROJ-1", "")), Response(200, "", IssueBody(issue))];
      Create(p, input, replies) == Exchange(
        [CreateIssue(CreateFields(p.cfg.projectKey, p.cfg.defaultIssueType, input)), GetIssue("PROJ-1")],
        Success(ConvertIssue(issue, p.cfg.source, p.parseTime)))
  {
  }

  /** Configuration with only the required keys takes every default. */
  lemma MinimalConfig(token: string, key: string)
    requires token != "" && !IsSpace(token[0]) && !IsSpace(token[|token| - 1])
    requires key != "" && !IsSpace(key[0]) && !IsSpace(key[|key| - 1])
    ensures New(map["apiToken" := Str(token), "projectKey" := Str(key)]) ==
      Success(Config(DefaultSource, token, DefaultAPIURL, key, DefaultIssueType))
  {
    var raw := map["apiToken" := Str(token), "projectKey" := Str(key)];
    assert StringEntry(raw, "apiToken") == Some(token);
    assert StringEntry(raw, "projectKey") == Some(key);
    assert StringEntry(raw, "source") == None;
    assert StringEntry(raw, "apiURL") == None;
    assert StringEntry(raw, "defaultIssueType") == None;
    TrimSpaceUntouched(token);
    TrimSpaceUntouched(key);
    assert ParseConfig(raw) == Config(DefaultSource, token, DefaultAPIURL, key, DefaultIssueType);
  }

  /** The configuration case of the tests: token "test-token" and key "PROJ". */
  lemma MinimalConfigCase()
    ensures New(map["apiToken" := Str("test-token"), "projectKey" := Str("PROJ")]) ==
      Success(Config("jira", "test-token", "https://your-domain.atlassian.net", "PROJ", "Task"))
  {
    MinimalConfig("test-token", "PROJ");
  }
}
