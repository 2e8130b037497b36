# Jira ticket adapter — a Dafny model

This project models the Jira ticket provider of the OpsOrch Jira adapter.
The provider is configured from a loosely typed map. It compiles ticket
queries into JQL, builds the `fields` payloads of issue creation and update,
and chooses the workflow transition that moves an issue to a requested
status. It also normalises Jira issues into flat tickets and sequences the
REST calls of `Create`, `Get`, `Query` and `Update`, mapping status codes to
errors.

Modules:

- `Common`: `Option`, `Result`, `Outcome`.
- `Text`: `strings.Join`, Go's white-space trimming, ASCII case folding.
- `Json`: decoded JSON values.
- `Schema`: ticket, query and input records.
- `ProviderConfig`: `parseConfig` and the checks of `New`.
- `Jql`: `buildJQL` and `escapeJQL`.
- `JqlReader`: a reader for the emitted string literals, used as the reference for round trips. Its grammar is the model's own convention, in which only a backslash before a double quote is an escape. The round-trip lemmas therefore show that the encoding reads back under this reader, not that Jira's JQL parser reads it the same way.
- `Normalize`: `convertJiraIssue`.
- `Payload`: create and update fields.
- `Transitions`: the transition choice.
- `Provider`: request sequencing and status mapping.
- `Examples`: the cases the repository's tests check.

HTTP is abstract:
- An operation returns the list of requests it issued, in order, and its result.
- The i-th request is answered by the i-th element of a reply list.
- A missing reply, or a failure to build or send a request, is `NoResponse`.
- A body that does not decode to the expected shape is `Undecodable`.

Where the repository's tests and its code disagree, the model follows the code:
- The tests expect priority, issue type, labels and components in the ticket metadata, but the code records only `source`.
- The tests mock a POST to `search/jql`, but the code issues a GET to `search`.
- The tests set an `Email` configuration field that the code's `Config` does not have.
- The code copies caller `Fields` into the payload verbatim, with no special handling of any key.

`escapeJQL` escapes double quotes but leaves backslashes alone. Under the model's reader, where only a backslash before a double quote is an escape, a value that ends in a backslash therefore escapes its own closing quote, and the compiled query no longer holds the value as one string literal. JQL also treats a doubled backslash as an escape. Under JQL's rules the break hits values that end in an odd number of backslashes, and backslashes inside a value are misread too; the model does not state this. The model keeps this behaviour of the code and states it in `JqlReader.TrailingBackslashEscapesQuote`.

## Model

| member | source | states |
|---|---|---|
| ProviderConfig.ParseConfig | ticket/jira_provider.go:63-85 | source and issue type default to "jira" and "Task" and take a given non-empty string verbatim; the URL defaults to "https://your-domain.atlassian.net" and is otherwise the trimmed given string, so it is empty only for a non-empty all-space string; token and project key are the trimmed string entries, empty exactly when the entry is missing, not a string, or all white space |
| ProviderConfig.TrimmedEntry | ticket/jira_provider.go:72-80 | a trimmed entry is empty exactly when the entry has no non-space character, and otherwise neither starts nor ends with white space |
| ProviderConfig.New | ticket/jira_provider.go:46-61 | success carries the parsed configuration with non-empty token, key and URL; the token is checked first, then the project key, each failure reported exactly when its entry lacks text |
| ProviderConfig.NewSucceedsIff | ticket/jira_provider.go:46-85 | construction succeeds exactly when token and key carry text and a given non-empty URL carries text; an absent URL never fails |
| Text.TrimSpace | ticket/jira_provider.go:73-79 | the result is the middle of the input between an all-space prefix and suffix, has no white space at either end, and is empty exactly when the input is all white space (Go's Unicode space set) |
| Text.TrimSpaceIdempotent | ticket/jira_provider.go:73-79 | trimming twice is trimming once |
| Text.Join | ticket/jira_provider.go:283 | Go's `strings.Join`: the parts in order with one separator between neighbours; its properties are the lemmas below |
| Text.JoinEnds | ticket/jira_provider.go:265-283 | a join of parts starts with the first part and ends with the last one |
| Text.JoinLength | ticket/jira_provider.go:283 | a join of n parts is as long as the parts plus n - 1 separators |
| Text.JoinConcat | ticket/jira_provider.go:283 | joining two non-empty lists is joining each and putting one separator between |
| Text.JoinEmptyIff | ticket/jira_provider.go:508 | a join of non-empty parts is empty exactly when there are no parts |
| Jql.Escape | ticket/jira_provider.go:289-292 | the escaped string is longer by exactly the number of double quotes and never starts with a bare quote |
| Jql.UnescapeEscape | ticket/jira_provider.go:289-292 | escaping is undone by removing the inserted backslashes, so it loses nothing |
| Jql.EscapeAppend | ticket/jira_provider.go:289-292 | escaping distributes over concatenation |
| Jql.EscapeQuoteFree | ticket/jira_provider.go:289-292 | a value without double quotes is emitted unchanged |
| Jql.EscapedQuotesArePreceded | ticket/jira_provider.go:289-292 | every double quote in escaped output is preceded by a backslash |
| Jql.Quote | ticket/jira_provider.go:260-274 | a quoted value starts and ends with a double quote and is longer than the value by two plus one per inner quote |
| Jql.InList | ticket/jira_provider.go:260-274 | the list of no values is empty; any other list starts with the first value's opening quote and ends with the last value's closing quote |
| Jql.QuoteAll | ticket/jira_provider.go:260-274 | each list value is quoted, in caller order, one per value |
| Jql.BuildJQL | ticket/jira_provider.go:248-287 | every query starts with the unquoted project clause and ends with the key-descending order clause |
| Jql.BuildJQLLayout | ticket/jira_provider.go:248-287 | the query is the project clause, then text, status, assignee and reporter clauses in that fixed order, each present exactly when its input is non-empty and preceded by " AND ", then the order clause |
| Jql.BuildJQLUnconstrained | ticket/jira_provider.go:248-287 | an unconstrained query is "project = KEY ORDER BY key DESC" |
| Jql.MaxResults | ticket/jira_provider.go:207-211 | the result cap is always positive: the query's limit when positive, else 50 |
| JqlReader.ReadLiteralEscaped | ticket/jira_provider.go:255-292 | an escaped value followed by a quote reads back as the value when it does not end in a backslash |
| JqlReader.ReadListInList | ticket/jira_provider.go:260-274 | a compiled IN list reads back as exactly the caller's values, in order, duplicates kept, when none ends in a backslash |
| JqlReader.TrailingBackslashEscapesQuote | ticket/jira_provider.go:289-292 | for every value ending in a backslash, the escaped value followed by the closing quote never closes: the value's backslash escapes that quote |
| JqlReader.TrailingBackslashBreaksList | ticket/jira_provider.go:260-274 | a one-value IN list whose value ends in a backslash does not read at all |
| Normalize.DescriptionText | ticket/jira_provider.go:499-508 | the description is the non-empty text nodes in document order joined by one space, and is empty exactly when every text node is empty, an empty document included |
| Normalize.FlattenDescription | ticket/jira_provider.go:499-508 | the nested loop over blocks and their nodes, as written, computes exactly that description |
| Normalize.NonEmptyNil | ticket/jira_provider.go:503 | dropping empty texts leaves nothing exactly when every text is empty |
| Normalize.DescriptionConcat | ticket/jira_provider.go:499-508 | the description of two documents in sequence is theirs joined by one space, or the non-empty one |
| Normalize.ConvertIssue | ticket/jira_provider.go:490-528 | id, key, title and status copied; description flattened; at most one assignee, present exactly when the issue has one; reporter id or ""; metadata is exactly the source label; unparsable timestamps become the zero time |
| Payload.DescriptionDoc | ticket/jira_provider.go:106-120 | the rich-text document for a description reads back as one paragraph holding one text node carrying the description |
| Payload.DescriptionRoundTrip | ticket/jira_provider.go:107-122 | the rich-text document built for a description flattens back to that description |
| Payload.CreateFields | ticket/jira_provider.go:92-128 | keys are project, summary, issue type, description only when non-empty, and every caller key; caller values win; built-in values otherwise |
| Payload.CreateDescriptionReadsBack | ticket/jira_provider.go:107-122 | the description sent by create reads back as the caller's description |
| Payload.UpdateFields | ticket/jira_provider.go:295-334 | keys are summary when a title is given, description when given (even ""), assignee only for a non-empty list, and every caller key; caller values win; the assignee is the first account id |
| Payload.UpdateFieldsEmptyIff | ticket/jira_provider.go:295-334 | the update payload is empty exactly when nothing but possibly a status or an empty assignee list is given |
| Payload.EmptyAssigneesAreNoChange | ticket/jira_provider.go:321-326 | an empty assignee list gives the payload of an absent one |
| Payload.OnlyFirstAssigneeSent | ticket/jira_provider.go:321-326 | assignees after the first do not affect the payload |
| Payload.DescriptionAsymmetry | ticket/jira_provider.go:107-122 | create omits an empty description while update sends it as an empty document |
| Payload.UpdateDescriptionReadsBack | ticket/jira_provider.go:305-319 | the description sent by update reads back as the caller's description |
| Text.EqualFold | ticket/jira_provider.go:416 | `strings.EqualFold` restricted to ASCII letters: same length and equal characters after folding; its reference is the lemma below |
| Text.EqualFoldLower | ticket/jira_provider.go:416 | two strings are equal up to letter case exactly when they are equal once both are lowered |
| Transitions.FirstMatch | ticket/jira_provider.go:413-419 | the position found is the first transition whose destination equals the target up to case; none exactly when no transition leads there |
| Transitions.SelectTransition | ticket/jira_provider.go:413-424 | an id is chosen exactly when the first matching transition has a non-empty id, and it is that id |
| Transitions.FirstMatchUnique | ticket/jira_provider.go:413-419 | the first match is unique |
| Transitions.SelectIgnoresCase | ticket/jira_provider.go:416 | targets that are equal up to case choose the same transition |
| Provider.Get | ticket/jira_provider.go:169-199 | one GET; NotFound exactly on 404; success exactly on 200 with an issue body, giving the normalised issue; other statuses are API errors with the raw body; no reply is a request failure; a 200 whose body does not decode is a decode failure |
| Provider.Create | ticket/jira_provider.go:92-166 | the first request posts the create fields; a second request, the GET of the returned key, is issued exactly on 201 with a decodable body and decides the result; any other status is an API error, 404 included; no reply is a request failure; a 201 whose body does not decode is a decode failure |
| Provider.ConvertAll | ticket/jira_provider.go:240-243 | one ticket per issue, in server order, each the normalised issue |
| Provider.Query | ticket/jira_provider.go:202-246 | one search request carrying the compiled JQL and the cap; success exactly on 200 with a search body, giving every issue normalised in order; any other status is an API error with the raw body, 404 included, so never NotFound; no reply is a request failure; a 200 whose body does not decode is a decode failure |
| Provider.TransitionIssue | ticket/jira_provider.go:379-459 | the transitions are fetched first; no reply to the fetch is a transitions request failure, a fetch status other than 200 is a transitions API error with the raw body, and a 200 that does not decode is a transitions decode failure; a POST of the chosen id follows exactly when the fetch returned 200 with a choice; the no-transition error arises exactly when the fetch succeeded and nothing was chosen; success exactly when the POST got 204, any other POST status being a transition API error with the raw body, and no reply to the POST a transition request failure |
| Provider.EditFields | ticket/jira_provider.go:343-373 | no request for an empty payload; otherwise one PUT, NotFound exactly on 404, success exactly on 204, an API error with the status and raw body for any other status, and a request failure when the PUT gets no reply |
| Provider.StatusChange | ticket/jira_provider.go:336-341 | a target status runs the transition of the issue to exactly that status; without one nothing is sent and the change passes; every request it sends is a transition request |
| Provider.Update | ticket/jira_provider.go:295-376 | a status change is attempted first and its failure aborts with its requests only, wrapped as a transition failure; success ends with the GET of the issue |
| Provider.UpdateShape | ticket/jira_provider.go:336-376 | the requests of an update are the status change's, then the edit's if the change passed, then one GET if both passed |
| Provider.UpdateAfterChange | ticket/jira_provider.go:343-376 | after a successful status change, a failed edit's error is the update's result, and after a successful edit the result is that of the GET answered by the next reply |
| Provider.UpdateNotFoundCause | ticket/jira_provider.go:336-376 | an update reports NotFound exactly when its last request, the edit or the final GET, was answered 404 |
| Provider.NotFoundAfterFailedChange | ticket/jira_provider.go:337-340 | a failed status change ends the update with transition requests only and is never NotFound |
| Provider.NotFoundAfterFailedEdit | ticket/jira_provider.go:365-372 | a failed edit is the last request, and the update is NotFound exactly when that PUT got 404 |
| Provider.NotFoundAfterFetch | ticket/jira_provider.go:375-376 | after a successful change and edit the GET is the last request, and the update is NotFound exactly when it got 404 |
| Provider.UpdateNotFoundIff | ticket/jira_provider.go:336-376 | NotFound exactly when the status change succeeded and then the next reply is 404, or the edit got 204 and the fetch after it got 404 |
| Provider.UpdateWithoutStatusSkipsTransitions | ticket/jira_provider.go:336-341 | without a status no transition request is sent |
| Provider.UpdateWithoutFieldsSkipsEdit | ticket/jira_provider.go:343-344 | with an empty payload no edit request is sent |
| Provider.UpdateRequestOrder | ticket/jira_provider.go:336-376 | every transition request precedes the edit, and the issue is fetched only as the last request |
| Provider.UpdateOfNothingIsGet | ticket/jira_provider.go:295-376 | an update that changes nothing is exactly a GET of the issue |
| Examples.QueryWithText | ticket/jira_provider_test.go:686-690 | a text search adds one quoted text clause |
| Examples.QueryWithStatuses | ticket/jira_provider_test.go:691-695 | two statuses become one IN list in caller order |
| Examples.QueryWithAssignees | ticket/jira_provider_test.go:696-700 | two assignees become one IN list in caller order |
| Examples.QueryWithReporter | ticket/jira_provider_test.go:701-705 | a reporter adds one quoted equality clause |
| Examples.QueryWithSeveralFilters | ticket/jira_provider_test.go:706-714 | several filters appear in the order text, status, assignee |
| Examples.EscapeQuotedWord | ticket/jira_provider_test.go:727-749 | a quoted word inside a text gets a backslash before each of its quotes |
| Examples.TwoParagraphDescription | ticket/jira_provider_test.go:752-836 | two text nodes of one paragraph become "First paragraph Second paragraph" |
| Examples.ChooseInProgress | ticket/jira_provider_test.go:533-556 | of the transitions 11, 21 and 31, the one to "In Progress" is 21, in either letter case |
| Examples.ChooseNothing | ticket/jira_provider.go:413-424 | of the transitions 11, 21 and 31, none leads to "Blocked", so nothing is chosen |
| Examples.EmptyIdShadowsLaterMatch | ticket/jira_provider.go:413-424 | a first match with an empty id hides a later match with an id |
| Examples.StatusOnlyUpdate | ticket/jira_provider_test.go:638-649 | a status-only update fetches transitions, posts 21 and fetches the issue, with no edit |
| Examples.EditOfMissingIssue | ticket/jira_provider_test.go:664-672 | an edit answered 404 reports NotFound after that single request |
| Examples.CreateThenFetch | ticket/jira_provider.go:150-166 | a create answered 201 fetches the issue by the returned key |
| Examples.MinimalConfig | ticket/jira_provider_test.go:38-50 | a configuration with only token and key takes every default |
| Examples.MinimalConfigCase | ticket/jira_provider_test.go:38-50 | token "test-token" and key "PROJ" alone give source "jira", the default URL and issue type "Task" |

## Left out

- HTTP transport, URLs, headers, authentication, request timeouts and JSON (un)marshalling: requests and decoded bodies are abstract values, and a request that cannot be built or sent is a missing reply.
- `time.Parse` with RFC 3339: a parameter of the provider, giving a time or nothing.
- The text of error messages: errors are constructors that keep the status code and raw body.
- Response bodies of error statuses are taken as given raw strings; reading them cannot fail in the model.
- Text.EqualFold: folds ASCII letters only, while Go's `strings.EqualFold` also folds non-ASCII case pairs, because Unicode case tables are outside the model.
- Provider registration at package initialisation, the adapter version constants and the plugin entry point: they have no logic.
- The `context` argument: cancellation is one more way for a request to get no reply.
