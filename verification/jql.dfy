/** Compilation of a ticket query into one JQL string (`buildJQL` and
    `escapeJQL`). The clause order is fixed: project, text, status, assignee,
    reporter, joined by " AND " and followed by a fixed ordering clause. */
module Jql {
  import opened Text
  import opened Schema

  const ClauseSeparator := " AND "
  const OrderSuffix := " ORDER BY key DESC"

  /** Every double quote becomes a backslash and a double quote; every other
      character, the backslash included, is kept as it is. */
  function Escape(s: string): (r: string)
    ensures |r| == |s| + Count(s, '"')
    ensures |s| > 0 ==> r[0] != '"'
  {
    if |s| == 0 then ""
    else (if s[0] == '"' then "\\\"" else [s[0]]) + Escape(s[1..])
  }

  /** Removes the backslash in front of every escaped double quote. */
  function Unescape(t: string): string
  {
    if |t| == 0 then ""
    else if |t| >= 2 && t[0] == '\\' && t[1] == '"' then "\"" + Unescape(t[2..])
    else [t[0]] + Unescape(t[1..])
  }

  /** Escaping loses nothing: it is undone by removing the inserted backslashes. */
  lemma {:induction false} UnescapeEscape(s: string)
    ensures Unescape(Escape(s)) == s
  {
    if |s| > 0 {
      UnescapeEscape(s[1..]);
      var e := Escape(s[1..]);
      if s[0] == '"' {
        assert Escape(s) == "\\\"" + e;
        assert (Escape(s))[2..] == e;
      } else {
        assert Escape(s) == [s[0]] + e;
        assert (Escape(s))[1..] == e;
        assert |e| > 0 ==> e[0] != '"';
      }
      assert s == [s[0]] + s[1..];
    }
  }

  /** Escaping works character by character, so it distributes over concatenation. */
  lemma {:induction false} EscapeAppend(a: string, b: string)
    ensures Escape(a + b) == Escape(a) + Escape(b)
  {
    if |a| > 0 {
      assert (a + b)[1..] == a[1..] + b;
      EscapeAppend(a[1..], b);
    } else {
      assert a + b == b;
    }
  }

  /** A string without double quotes is returned unchanged. */
  lemma {:induction false} EscapeQuoteFree(s: string)
    requires '"' !in s
    ensures Escape(s) == s
  {
    if |s| > 0 {
      assert '"' !in s[1..] by {
        forall i | 0 <= i < |s[1..]| ensures s[1..][i] != '"' {
          assert s[1..][i] == s[i + 1];
        }
      }
      EscapeQuoteFree(s[1..]);
      assert s == [s[0]] + s[1..];
    }
  }

  /** Every double quote in an escaped string is preceded by a backslash. */
  lemma {:induction false} EscapedQuotesArePreceded(s: string, i: int)
    requires 0 <= i < |Escape(s)| && Escape(s)[i] == '"'
    ensures 0 < i && Escape(s)[i - 1] == '\\'
  {
    var e := Escape(s[1..]);
    if s[0] == '"' {
      assert Escape(s) == "\\\"" + e;
      if i >= 2 {
        assert Escape(s)[i] == e[i - 2];
        EscapedQuotesArePreceded(s[1..], i - 2);
        if i > 2 {
          assert Escape(s)[i - 1] == e[i - 3];
        }
      }
    } else {
      assert Escape(s) == [s[0]] + e;
      assert i > 0;
      assert Escape(s)[i] == e[i - 1];
      EscapedQuotesArePreceded(s[1..], i - 1);
      assert Escape(s)[i - 1] == e[i - 2];
    }
  }

  /** A value as a JQL string literal: escaped and wrapped in double quotes. */
  function Quote(s: string): (r: string)
    ensures |r| == |s| + Count(s, '"') + 2
    ensures r[0] == '"' && r[|r| - 1] == '"'
  {
    "\"" + Escape(s) + "\""
  }

  /** Each value quoted, in caller order. */
  function QuoteAll(xs: seq<string>): (r: seq<string>)
    ensures |r| == |xs|
    ensures forall i :: 0 <= i < |xs| ==> r[i] == Quote(xs[i])
  {
    if |xs| == 0 then [] else [Quote(xs[0])] + QuoteAll(xs[1..])
  }

  /** The body of an `IN (...)` list: the quoted values joined by commas, in
      caller order, duplicates kept. */
  function InList(xs: seq<string>): (r: string)
    ensures |xs| == 0 ==> r == ""
    ensures |xs| > 0 ==> |r| >= 2 && r[0] == '"' && r[|r| - 1] == '"'
  {
    JoinEnds(QuoteAll(xs), ",");
    Join(QuoteAll(xs), ",")
  }

  /** A list of one value is that value quoted; a longer list is its first
      value quoted, a comma, and the list of the rest. */
  lemma InListSplit(xs: seq<string>)
    requires |xs| > 0
    ensures |xs| == 1 ==> InList(xs) == Quote(xs[0])
    ensures |xs| > 1 ==> InList(xs) == Quote(xs[0]) + "," + InList(xs[1..])
  {
    assert QuoteAll(xs)[1..] == QuoteAll(xs[1..]);
  }

  function ProjectClause(projectKey: string): string
  {
    "project = " + projectKey
  }

  function TextClause(text: string): string
  {
    "text ~ " + Quote(text)
  }

  function StatusClause(statuses: seq<string>): string
  {
    "status IN (" + InList(statuses) + ")"
  }

  function AssigneeClause(assignees: seq<string>): string
  {
    "assignee IN (" + InList(assignees) + ")"
  }

  function ReporterClause(reporter: string): string
  {
    "reporter = " + Quote(reporter)
  }

  /** The clauses after the project clause, one per constrained dimension. */
  function OptionalClauses(q: TicketQuery): seq<string>
  {
    (if q.query != "" then [TextClause(q.query)] else [])
    + (if |q.statuses| > 0 then [StatusClause(q.statuses)] else [])
    + (if |q.assignees| > 0 then [AssigneeClause(q.assignees)] else [])
    + (if q.reporter != "" then [ReporterClause(q.reporter)] else [])
  }

  /** `buildJQL`: the project clause with the key inserted verbatim (neither
      quoted nor escaped), the optional clauses, and the ordering suffix. */
  function BuildJQL(q: TicketQuery, projectKey: string): (jql: string)
    ensures ProjectClause(projectKey) <= jql
    ensures |jql| >= |OrderSuffix| && jql[|jql| - |OrderSuffix|..] == OrderSuffix
  {
    var clauses := [ProjectClause(projectKey)] + OptionalClauses(q);
    JoinAsPrefixed(clauses, ClauseSeparator);
    Join(clauses, ClauseSeparator) + OrderSuffix
  }

  /** " AND " and the clause when `present`, nothing otherwise. */
  function Conjunct(present: bool, clause: string): string
  {
    if present then ClauseSeparator + clause else ""
  }

  /** The compiled query laid out clause by clause: each optional clause is
      there exactly when its input is non-empty, and in the fixed order. */
  lemma BuildJQLLayout(q: TicketQuery, projectKey: string)
    ensures BuildJQL(q, projectKey)
      == ProjectClause(projectKey)
       + (Conjunct(q.query != "", TextClause(q.query))
          + Conjunct(|q.statuses| > 0, StatusClause(q.statuses))
          + Conjunct(|q.assignees| > 0, AssigneeClause(q.assignees))
          + Conjunct(q.reporter != "", ReporterClause(q.reporter)))
       + OrderSuffix
  {
    JoinLayout(ProjectClause(projectKey),
      q.query != "", TextClause(q.query),
      |q.statuses| > 0, StatusClause(q.statuses),
      |q.assignees| > 0, AssigneeClause(q.assignees),
      q.reporter != "", ReporterClause(q.reporter));
  }

  /** Joining a first clause and four optional ones puts " AND " before each
      optional clause that is present. */
  lemma JoinLayout(first: string, bt: bool, ct: string, bs: bool, cs: string,
                   ba: bool, ca: string, br: bool, cr: string)
    ensures Join([first] + ((if bt then [ct] else []) + (if bs then [cs] else [])
                           + (if ba then [ca] else []) + (if br then [cr] else [])), ClauseSeparator)
      == first + (Conjunct(bt, ct) + Conjunct(bs, cs) + Conjunct(ba, ca) + Conjunct(br, cr))
  {
    var t: seq<string> := if bt then [ct] else [];
    var s: seq<string> := if bs then [cs] else [];
    var a: seq<string> := if ba then [ca] else [];
    var r: seq<string> := if br then [cr] else [];
    var clauses := [first] + (t + s + a + r);
    assert clauses[1..] == t + s + a + r;
    JoinAsPrefixed(clauses, ClauseSeparator);
    PrefixedAppend(t + s + a, r, ClauseSeparator);
    PrefixedAppend(t + s, a, ClauseSeparator);
    PrefixedAppend(t, s, ClauseSeparator);
    PrefixedOptional(bt, ct);
    PrefixedOptional(bs, cs);
    PrefixedOptional(ba, ca);
    PrefixedOptional(br, cr);
  }

  lemma PrefixedOptional(present: bool, clause: string)
    ensures Prefixed(if present then [clause] else [], ClauseSeparator) == Conjunct(present, clause)
  {
    if present {
      assert [clause][1..] == [];
    }
  }

  /** A query with no constraint compiles to the project clause and the suffix. */
  lemma BuildJQLUnconstrained(q: TicketQuery, projectKey: string)
    requires q.query == "" && q.statuses == [] && q.assignees == [] && q.reporter == ""
    ensures BuildJQL(q, projectKey) == "project = " + projectKey + " ORDER BY key DESC"
  {
    BuildJQLLayout(q, projectKey);
  }

  /** The result cap sent with a search: the query's limit when positive, else 50. */
  function MaxResults(limit: int): (n: int)
    ensures n > 0
    ensures limit > 0 ==> n == limit
    ensures limit <= 0 ==> n == 50
  {
    if limit > 0 then limit else 50
  }
}
