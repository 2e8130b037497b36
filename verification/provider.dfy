/** The four provider operations as exchanges with the Jira server. Each
    operation issues requests one after another; the i-th request issued is
    answered by the i-th reply of `replies`. A reply that is missing, or
    whose request could not be built or sent, is `NoResponse`. */
module Provider {
  import opened Common
  import opened Json
  import opened Schema
  import opened ProviderConfig
  import opened Jql
  import opened Normalize
  import opened Payload
  import opened Transitions

  const StatusOK := 200
  const StatusCreated := 201
  const StatusNoContent := 204
  const StatusNotFound := 404

  /** The requests the adapter sends, without transport details. */
  datatype Request =
    | CreateIssue(fields: map<string, Value>)           // POST issue
    | GetIssue(id: string)                              // GET issue/<id>
    | SearchIssues(jql: string, maxResults: int)        // GET search with jql and maxResults
    | EditIssue(id: string, fields: map<string, Value>) // PUT issue/<id>
    | GetTransitions(id: string)                        // GET issue/<id>/transitions
    | PostTransition(id: string, transitionId: string)  // POST issue/<id>/transitions

  /** A response body, already decoded. A body that does not have the shape
      the request expects is `Undecodable`. */
  datatype Body =
    | Undecodable
    | CreatedRef(id: string, key: string, self: string)
    | IssueBody(issue: JiraIssue)
    | SearchBody(issues: seq<JiraIssue>)
    | TransitionsBody(transitions: seq<Transition>)

  /** A status code with the raw and the decoded body, or no response. */
  datatype Reply = Response(status: int, raw: string, body: Body) | NoResponse

  /** Failures of the status change; `Update` wraps each one. */
  datatype TransitionError =
    | TransitionsRequestFailed
    | TransitionsApiError(status: int, body: string)
    | TransitionsDecodeFailed
    | NoTransitionTo(target: string)
    | TransitionRequestFailed
    | TransitionApiError(status: int, body: string)

  /** The errors an operation returns. `NotFound` is the distinguished
      not-found condition; `ApiError` carries the status and the raw body. */
  datatype Error =
    | NotFound
    | RequestFailed
    | ApiError(status: int, body: string)
    | DecodeFailed
    | TransitionFailed(cause: TransitionError)

  /** The requests an operation issued, in order, and what it returned. */
  datatype Exchange<T> = Exchange(requests: seq<Request>, result: Result<T, Error>)

  /** The requests a sub-step issued and whether it succeeded. */
  datatype Step<E> = Step(requests: seq<Request>, outcome: Outcome<E>)

  /** A configured provider. Timestamp parsing is a parameter: it gives the
      instant an RFC 3339 string denotes, or nothing when it does not parse. */
  datatype Provider = Provider(cfg: Config, parseTime: string -> Option<Time>)

  /** The reply to the next request. */
  function Answer(replies: seq<Reply>): Reply
  {
    if |replies| == 0 then NoResponse else replies[0]
  }

  /** The replies left after `n` requests. */
  function Later(replies: seq<Reply>, n: nat): seq<Reply>
  {
    if n <= |replies| then replies[n..] else []
  }

  lemma LaterLater(replies: seq<Reply>, a: nat, b: nat)
    ensures Later(Later(replies, a), b) == Later(replies, a + b)
  {
  }

  predicate AnsweredWith(r: Reply, status: int)
  {
    r.Response? && r.status == status
  }

  /** `Get`: one GET; 404 is `NotFound`, any other status but 200 is an API
      error, and a 200 with an issue body is that issue normalised. */
  function Get(p: Provider, id: string, replies: seq<Reply>): (e: Exchange<Ticket>)
    ensures e.requests == [GetIssue(id)]
    ensures e.result == Failure(NotFound) <==> AnsweredWith(Answer(replies), StatusNotFound)
    ensures e.result.Success? <==> AnsweredWith(Answer(replies), StatusOK) && Answer(replies).body.IssueBody?
    ensures e.result.Success? ==>
      e.result.value == ConvertIssue(Answer(replies).body.issue, p.cfg.source, p.parseTime)
    ensures Answer(replies).Response? && Answer(replies).status !in {StatusOK, StatusNotFound} ==>
      e.result == Failure(ApiError(Answer(replies).status, Answer(replies).raw))
    ensures Answer(replies).NoResponse? ==> e.result == Failure(RequestFailed)
    ensures AnsweredWith(Answer(replies), StatusOK) && !Answer(replies).body.IssueBody? ==>
      e.result == Failure(DecodeFailed)
  {
    var request := GetIssue(id);
    match Answer(replies)
    case NoResponse => Exchange([request], Failure(RequestFailed))
    case Response(status, raw, body) =>
      if status == StatusNotFound then Exchange([request], Failure(NotFound))
      else if status != StatusOK then Exchange([request], Failure(ApiError(status, raw)))
      else if body.IssueBody? then
        Exchange([request], Success(ConvertIssue(body.issue, p.cfg.source, p.parseTime)))
      else Exchange([request], Failure(DecodeFailed))
  }

  /** `Create`: one POST of the create fields; on 201 with a decodable body,
      exactly one GET of the returned key, whose outcome is the result. */
  function Create(p: Provider, input: CreateTicketInput, replies: seq<Reply>): (e: Exchange<Ticket>)
    ensures 1 <= |e.requests| <= 2
    ensures e.requests[0] == CreateIssue(CreateFields(p.cfg.projectKey, p.cfg.defaultIssueType, input))
    ensures |e.requests| == 2 <==>
      AnsweredWith(Answer(replies), StatusCreated) && Answer(replies).body.CreatedRef?
    ensures |e.requests| == 2 ==>
      var follow := Get(p, Answer(replies).body.key, Later(replies, 1));
      e.requests[1] == GetIssue(Answer(replies).body.key) && e.result == follow.result
    ensures e.result.Success? ==> |e.requests| == 2
    ensures Answer(replies).Response? && Answer(replies).status != StatusCreated ==>
      e.result == Failure(ApiError(Answer(replies).status, Answer(replies).raw))
    ensures Answer(replies).NoResponse? ==> e.result == Failure(RequestFailed)
    ensures AnsweredWith(Answer(replies), StatusCreated) && !Answer(replies).body.CreatedRef? ==>
      e.result == Failure(DecodeFailed)
  {
    var request := CreateIssue(CreateFields(p.cfg.projectKey, p.cfg.defaultIssueType, input));
    match Answer(replies)
    case NoResponse => Exchange([request], Failure(RequestFailed))
    case Response(status, raw, body) =>
      if status != StatusCreated then Exchange([request], Failure(ApiError(status, raw)))
      else if body.CreatedRef? then
        var follow := Get(p, body.key, Later(replies, 1));
        Exchange([request] + follow.requests, follow.result)
      else Exchange([request], Failure(DecodeFailed))
  }

  /** Every issue normalised, in the order given. */
  function ConvertAll(p: Provider, issues: seq<JiraIssue>): (ts: seq<Ticket>)
    ensures |ts| == |issues|
    ensures forall i :: 0 <= i < |issues| ==> ts[i] == ConvertIssue(issues[i], p.cfg.source, p.parseTime)
  {
    if |issues| == 0 then []
    else [ConvertIssue(issues[0], p.cfg.source, p.parseTime)] + ConvertAll(p, issues[1..])
  }

  /** `Query`: one search carrying the compiled JQL and the result cap; on 200
      every returned issue is normalised, in server order. A 404 is an API
      error here, never `NotFound`. */
  function Query(p: Provider, q: TicketQuery, replies: seq<Reply>): (e: Exchange<seq<Ticket>>)
    ensures e.requests == [SearchIssues(BuildJQL(q, p.cfg.projectKey), MaxResults(q.limit))]
    ensures e.result != Failure(NotFound)
    ensures e.result.Success? <==> AnsweredWith(Answer(replies), StatusOK) && Answer(replies).body.SearchBody?
    ensures Answer(replies).Response? && Answer(replies).status != StatusOK ==>
      e.result == Failure(ApiError(Answer(replies).status, Answer(replies).raw))
    ensures Answer(replies).NoResponse? ==> e.result == Failure(RequestFailed)
    ensures AnsweredWith(Answer(replies), StatusOK) && !Answer(replies).body.SearchBody? ==>
      e.result == Failure(DecodeFailed)
    ensures e.result.Success? ==>
      var issues := Answer(replies).body.issues;
      && |e.result.value| == |issues|
      && forall i :: 0 <= i < |issues| ==> e.result.value[i] == ConvertIssue(issues[i], p.cfg.source, p.parseTime)
  {
    var request := SearchIssues(BuildJQL(q, p.cfg.projectKey), MaxResults(q.limit));
    match Answer(replies)
    case NoResponse => Exchange([request], Failure(RequestFailed))
    case Response(status, raw, body) =>
      if status != StatusOK then Exchange([request], Failure(ApiError(status, raw)))
      else if body.SearchBody? then
        Exchange([request], Success(ConvertAll(p, body.issues)))
      else Exchange([request], Failure(DecodeFailed))
  }

  /** `transitionIssue`: fetch the transitions, choose one, and apply it. The
      POST is issued only when a transition was chosen. */
  function TransitionIssue(id: string, target: string, replies: seq<Reply>): (s: Step<TransitionError>)
    ensures 1 <= |s.requests| <= 2 && s.requests[0] == GetTransitions(id)
    ensures |s.requests| == 2 <==>
      && AnsweredWith(Answer(replies), StatusOK) && Answer(replies).body.TransitionsBody?
      && SelectTransition(Answer(replies).body.transitions, target).Some?
    ensures |s.requests| == 2 ==>
      s.requests[1] == PostTransition(id, SelectTransition(Answer(replies).body.transitions, target).value)
    ensures s.outcome.Pass? <==> |s.requests| == 2 && AnsweredWith(Answer(Later(replies, 1)), StatusNoContent)
    ensures s.outcome == Fail(NoTransitionTo(target)) <==>
      && AnsweredWith(Answer(replies), StatusOK) && Answer(replies).body.TransitionsBody?
      && SelectTransition(Answer(replies).body.transitions, target).None?
    ensures Answer(replies).Response? && Answer(replies).status != StatusOK ==>
      s.outcome == Fail(TransitionsApiError(Answer(replies).status, Answer(replies).raw))
    ensures |s.requests| == 2 && Answer(Later(replies, 1)).Response? && Answer(Later(replies, 1)).status != StatusNoContent ==>
      s.outcome == Fail(TransitionApiError(Answer(Later(replies, 1)).status, Answer(Later(replies, 1)).raw))
    ensures Answer(replies).NoResponse? ==> s.outcome == Fail(TransitionsRequestFailed)
    ensures AnsweredWith(Answer(replies), StatusOK) && !Answer(replies).body.TransitionsBody? ==>
      s.outcome == Fail(TransitionsDecodeFailed)
    ensures |s.requests| == 2 && Answer(Later(replies, 1)).NoResponse? ==> s.outcome == Fail(TransitionRequestFailed)
  {
    var fetch := GetTransitions(id);
    match Answer(replies)
    case NoResponse => Step([fetch], Fail(TransitionsRequestFailed))
    case Response(status, raw, body) =>
      if status != StatusOK then Step([fetch], Fail(TransitionsApiError(status, raw)))
      else if !body.TransitionsBody? then Step([fetch], Fail(TransitionsDecodeFailed))
      else
        match SelectTransition(body.transitions, target)
        case None => Step([fetch], Fail(NoTransitionTo(target)))
        case Some(transitionId) =>
          var apply := PostTransition(id, transitionId);
          match Answer(Later(replies, 1))
          case NoResponse => Step([fetch, apply], Fail(TransitionRequestFailed))
          case Response(status', raw', _) =>
            if status' != StatusNoContent then Step([fetch, apply], Fail(TransitionApiError(status', raw')))
            else Step([fetch, apply], Pass)
  }

  /** The field update of `Update`: skipped when there are no fields, else one
      PUT where 404 is `NotFound` and any status but 204 is an API error. */
  function EditFields(id: string, fields: map<string, Value>, replies: seq<Reply>): (s: Step<Error>)
    ensures |fields| == 0 ==> s == Step([], Pass)
    ensures |fields| > 0 ==> s.requests == [EditIssue(id, fields)]
    ensures forall i :: 0 <= i < |s.requests| ==> s.requests[i].EditIssue?
    ensures |fields| > 0 ==>
      (s.outcome == Fail(NotFound) <==> AnsweredWith(Answer(replies), StatusNotFound))
    ensures |fields| > 0 ==>
      (s.outcome.Pass? <==> AnsweredWith(Answer(replies), StatusNoContent))
    ensures |fields| > 0 && Answer(replies).Response? && Answer(replies).status !in {StatusNotFound, StatusNoContent} ==>
      s.outcome == Fail(ApiError(Answer(replies).status, Answer(replies).raw))
    ensures |fields| > 0 && Answer(replies).NoResponse? ==> s.outcome == Fail(RequestFailed)
  {
    if |fields| == 0 then Step([], Pass)
    else
      var request := EditIssue(id, fields);
      match Answer(replies)
      case NoResponse => Step([request], Fail(RequestFailed))
      case Response(status, raw, _) =>
        if status == StatusNotFound then Step([request], Fail(NotFound))
        else if status != StatusNoContent then Step([request], Fail(ApiError(status, raw)))
        else Step([request], Pass)
  }

  /** A request that belongs to a status change. */
  predicate IsTransitionRequest(r: Request)
  {
    r.GetTransitions? || r.PostTransition?
  }

  /** The status change of an update: the transition to the requested status
      when there is one, and nothing otherwise. */
  function StatusChange(input: UpdateTicketInput, id: string, replies: seq<Reply>): (s: Step<TransitionError>)
    ensures input.status.None? ==> s == Step([], Pass)
    ensures input.status.Some? ==> s == TransitionIssue(id, input.status.value, replies)
    ensures forall i :: 0 <= i < |s.requests| ==> IsTransitionRequest(s.requests[i])
  {
    if input.status.Some? then TransitionIssue(id, input.status.value, replies) else Step([], Pass)
  }

  /** `Update`: the status change first, then the field update, then one GET
      of the issue, stopping at the first failure. */
  function Update(p: Provider, id: string, input: UpdateTicketInput, replies: seq<Reply>): (e: Exchange<Ticket>)
    ensures input.status.Some? ==> |e.requests| > 0 && e.requests[0] == GetTransitions(id)
    ensures StatusChange(input, id, replies).outcome.Fail? ==>
      && e.requests == StatusChange(input, id, replies).requests
      && e.result == Failure(TransitionFailed(StatusChange(input, id, replies).outcome.error))
    ensures e.result.Success? ==> |e.requests| > 0 && e.requests[|e.requests| - 1] == GetIssue(id)
  {
    var fields := UpdateFields(input);
    var change := StatusChange(input, id, replies);
    if change.outcome.Fail? then
      Exchange(change.requests, Failure(TransitionFailed(change.outcome.error)))
    else
      var afterChange := Later(replies, |change.requests|);
      var edit := EditFields(id, fields, afterChange);
      if edit.outcome.Fail? then
        Exchange(change.requests + edit.requests, Failure(edit.outcome.error))
      else
        var fetch := Get(p, id, Later(afterChange, |edit.requests|));
        Exchange(change.requests + edit.requests + fetch.requests, fetch.result)
  }

  /** The requests of an update are the status change's, then the field
      update's if the change succeeded, then one GET if both succeeded. */
  lemma UpdateShape(p: Provider, id: string, input: UpdateTicketInput, replies: seq<Reply>)
    ensures
      var change := StatusChange(input, id, replies);
      var edit := EditFields(id, UpdateFields(input), Later(replies, |change.requests|));
      Update(p, id, input, replies).requests ==
        change.requests
        + (if change.outcome.Pass? then edit.requests else [])
        + (if change.outcome.Pass? && edit.outcome.Pass? then [GetIssue(id)] else [])
  {
    var change := StatusChange(input, id, replies);
    var edit := EditFields(id, UpdateFields(input), Later(replies, |change.requests|));
    if change.outcome.Fail? {
      assert change.requests + [] + [] == change.requests;
    } else if edit.outcome.Fail? {
      assert change.requests + edit.requests + [] == change.requests + edit.requests;
    }
  }

  /** After a successful status change, a failed edit is the update's
      failure, and a successful one hands the result to the final fetch,
      which is answered by the reply after the edit's. */
  lemma UpdateAfterChange(p: Provider, id: string, input: UpdateTicketInput, replies: seq<Reply>)
    ensures
      var change := StatusChange(input, id, replies);
      var n := |change.requests|;
      var edit := EditFields(id, UpdateFields(input), Later(replies, n));
      var e := Update(p, id, input, replies);
      change.outcome.Pass? ==>
        && (edit.outcome.Fail? ==> e.result == Failure(edit.outcome.error))
        && (edit.outcome.Pass? ==> e.result == Get(p, id, Later(replies, n + |edit.requests|)).result)
  {
    var change := StatusChange(input, id, replies);
    var n := |change.requests|;
    var edit := EditFields(id, UpdateFields(input), Later(replies, n));
    LaterLater(replies, n, |edit.requests|);
  }

  /** The last request of an exchange is an edit or an issue fetch, and the
      reply to it is a 404. */
  predicate LastAnsweredNotFound(e: Exchange<Ticket>, replies: seq<Reply>)
  {
    && |e.requests| > 0
    && (e.requests[|e.requests| - 1].EditIssue? || e.requests[|e.requests| - 1].GetIssue?)
    && AnsweredWith(Answer(Later(replies, |e.requests| - 1)), StatusNotFound)
  }

  /** An update reports `NotFound` exactly when its last request, the edit
      or the final fetch, was answered 404; a failed status change never does. */
  lemma UpdateNotFoundCause(p: Provider, id: string, input: UpdateTicketInput, replies: seq<Reply>)
    ensures Update(p, id, input, replies).result == Failure(NotFound) <==>
      LastAnsweredNotFound(Update(p, id, input, replies), replies)
  {
    var e := Update(p, id, input, replies);
    var change := StatusChange(input, id, replies);
    var n := |change.requests|;
    var edit := EditFields(id, UpdateFields(input), Later(replies, n));
    if change.outcome.Fail? {
      NotFoundAfterFailedChange(p, id, input, replies);
    } else if edit.outcome.Fail? {
      NotFoundAfterFailedEdit(p, id, input, replies);
      LastRequestAt(e, replies, n);
    } else {
      NotFoundAfterFetch(p, id, input, replies);
      LastRequestAt(e, replies, n + |edit.requests|);
    }
  }

  /** When request `k` is the last one, an edit or a fetch, and the result is
      `NotFound` exactly when its reply is a 404, the result is `NotFound`
      exactly when the last request was answered 404. */
  lemma LastRequestAt(e: Exchange<Ticket>, replies: seq<Reply>, k: nat)
    requires |e.requests| == k + 1 && (e.requests[k].EditIssue? || e.requests[k].GetIssue?)
    requires e.result == Failure(NotFound) <==> AnsweredWith(Answer(Later(replies, k)), StatusNotFound)
    ensures e.result == Failure(NotFound) <==> LastAnsweredNotFound(e, replies)
  {
  }

  /** A failed status change ends the update with transition requests only. */
  lemma NotFoundAfterFailedChange(p: Provider, id: string, input: UpdateTicketInput, replies: seq<Reply>)
    requires StatusChange(input, id, replies).outcome.Fail?
    ensures var e := Update(p, id, input, replies);
      && e.result != Failure(NotFound)
      && (|e.requests| > 0 ==> IsTransitionRequest(e.requests[|e.requests| - 1]))
      && !LastAnsweredNotFound(e, replies)
  {
  }

  /** A failed edit is the last request, and its failure is the update's. */
  lemma NotFoundAfterFailedEdit(p: Provider, id: string, input: UpdateTicketInput, replies: seq<Reply>)
    ensures
      var change := StatusChange(input, id, replies);
      var n := |change.requests|;
      var e := Update(p, id, input, replies);
      change.outcome.Pass? && EditFields(id, UpdateFields(input), Later(replies, n)).outcome.Fail? ==>
      && |e.requests| == n + 1
      && e.requests[n].EditIssue?
      && (e.result == Failure(NotFound) <==> AnsweredWith(Answer(Later(replies, n)), StatusNotFound))
  {
    var change := StatusChange(input, id, replies);
    var fields := UpdateFields(input);
    var edit := EditFields(id, fields, Later(replies, |change.requests|));
    if change.outcome.Pass? && edit.outcome.Fail? {
      UpdateShape(p, id, input, replies);
      UpdateAfterChange(p, id, input, replies);
      assert |fields| > 0 && edit.requests == [EditIssue(id, fields)];
    }
  }

  /** After a successful change and edit the fetch is the last request, and
      its outcome is the update's. */
  lemma NotFoundAfterFetch(p: Provider, id: string, input: UpdateTicketInput, replies: seq<Reply>)
    ensures
      var change := StatusChange(input, id, replies);
      var n := |change.requests|;
      var edit := EditFields(id, UpdateFields(input), Later(replies, n));
      var m := |edit.requests|;
      var e := Update(p, id, input, replies);
      change.outcome.Pass? && edit.outcome.Pass? ==>
      && |e.requests| == n + m + 1
      && e.requests[n + m] == GetIssue(id)
      && (e.result == Failure(NotFound) <==> AnsweredWith(Answer(Later(replies, n + m)), StatusNotFound))
  {
    UpdateShape(p, id, input, replies);
    UpdateAfterChange(p, id, input, replies);
  }

  /** The same condition in terms of the replies: the status change
      succeeded, and then either the next reply is a 404 (to the edit, or to
      the fetch when there is nothing to edit), or the edit got 204 and the
      fetch after it got 404. */
  lemma UpdateNotFoundIff(p: Provider, id: string, input: UpdateTicketInput, replies: seq<Reply>)
    ensures
      var change := StatusChange(input, id, replies);
      var n := |change.requests|;
      Update(p, id, input, replies).result == Failure(NotFound) <==>
        && change.outcome.Pass?
        && (|| AnsweredWith(Answer(Later(replies, n)), StatusNotFound)
            || (&& |UpdateFields(input)| > 0
                && AnsweredWith(Answer(Later(replies, n)), StatusNoContent)
                && AnsweredWith(Answer(Later(replies, n + 1)), StatusNotFound)))
  {
    var change := StatusChange(input, id, replies);
    var n := |change.requests|;
    var fields := UpdateFields(input);
    var edit := EditFields(id, fields, Later(replies, n));
    UpdateAfterChange(p, id, input, replies);
    if change.outcome.Pass? && edit.outcome.Pass? {
      if |fields| > 0 {
        assert |edit.requests| == 1;
      } else {
        assert |edit.requests| == 0;
      }
    }
  }

  /** Without a target status an update sends no transition request. */
  lemma UpdateWithoutStatusSkipsTransitions(p: Provider, id: string, input: UpdateTicketInput, replies: seq<Reply>)
    requires input.status.None?
    ensures var rs := Update(p, id, input, replies).requests;
      forall i :: 0 <= i < |rs| ==> !IsTransitionRequest(rs[i])
  {
    UpdateShape(p, id, input, replies);
    var change := StatusChange(input, id, replies);
    assert change == Step([], Pass);
    var edit := EditFields(id, UpdateFields(input), Later(replies, 0));
    var c: seq<Request> := if edit.outcome.Pass? then [GetIssue(id)] else [];
    var rs := Update(p, id, input, replies).requests;
    assert rs == [] + edit.requests + c;
    assert forall i :: 0 <= i < |rs| ==> rs[i] in edit.requests || rs[i] in c;
  }

  /** Without any field to change an update sends no edit request. */
  lemma UpdateWithoutFieldsSkipsEdit(p: Provider, id: string, input: UpdateTicketInput, replies: seq<Reply>)
    requires |UpdateFields(input)| == 0
    ensures var rs := Update(p, id, input, replies).requests;
      forall i :: 0 <= i < |rs| ==> !rs[i].EditIssue?
  {
    UpdateShape(p, id, input, replies);
    var change := StatusChange(input, id, replies);
    assert EditFields(id, UpdateFields(input), Later(replies, |change.requests|)) == Step([], Pass);
    var c: seq<Request> := if change.outcome.Pass? then [GetIssue(id)] else [];
    var rs := Update(p, id, input, replies).requests;
    assert rs == change.requests + [] + c;
    assert forall i :: 0 <= i < |rs| ==> rs[i] in change.requests || rs[i] in c;
  }

  /** A request list made of transition requests, then edits, then at most
      one fetch: edits precede no transition request, and only the last
      request can be a fetch. */
  lemma Phases(a: seq<Request>, b: seq<Request>, c: seq<Request>)
    requires forall i :: 0 <= i < |a| ==> IsTransitionRequest(a[i])
    requires forall i :: 0 <= i < |b| ==> b[i].EditIssue?
    requires |c| <= 1 && forall i :: 0 <= i < |c| ==> c[i].GetIssue?
    ensures var rs := a + b + c;
      forall i, j :: 0 <= i < j < |rs| && rs[i].EditIssue? ==> !IsTransitionRequest(rs[j])
    ensures var rs := a + b + c;
      forall i :: 0 <= i < |rs| - 1 ==> !rs[i].GetIssue?
  {
    var rs := a + b + c;
    assert forall i :: 0 <= i < |a| ==> rs[i] == a[i];
    assert forall i :: |a| <= i < |a| + |b| ==> rs[i] == b[i - |a|];
    assert forall i :: |a| + |b| <= i < |rs| ==> rs[i] == c[i - |a| - |b|];
  }

  /** Every transition request of an update comes before its edit request,
      and the issue is fetched only as the last request. */
  lemma UpdateRequestOrder(p: Provider, id: string, input: UpdateTicketInput, replies: seq<Reply>)
    ensures var rs := Update(p, id, input, replies).requests;
      forall i, j :: 0 <= i < j < |rs| && rs[i].EditIssue? ==> !IsTransitionRequest(rs[j])
    ensures var rs := Update(p, id, input, replies).requests;
      forall i :: 0 <= i < |rs| - 1 ==> !rs[i].GetIssue?
  {
    UpdateShape(p, id, input, replies);
    var change := StatusChange(input, id, replies);
    var edit := EditFields(id, UpdateFields(input), Later(replies, |change.requests|));
    var b := if change.outcome.Pass? then edit.requests else [];
    var c := if change.outcome.Pass? && edit.outcome.Pass? then [GetIssue(id)] else [];
    assert forall i :: 0 <= i < |b| ==> b[i].EditIssue?;
    Phases(change.requests, b, c);
  }

  /** An update that changes nothing is exactly a fetch of the issue. */
  lemma UpdateOfNothingIsGet(p: Provider, id: string, input: UpdateTicketInput, replies: seq<Reply>)
    requires input.status.None? && input.title.None? && input.description.None?
    requires !ChangesAssignee(input) && |input.fields| == 0
    ensures Update(p, id, input, replies) == Get(p, id, replies)
  {
    UpdateFieldsEmptyIff(input);
    assert Later(replies, 0) == replies;
    assert [] + [] + Get(p, id, replies).requests == Get(p, id, replies).requests;
  }
}
