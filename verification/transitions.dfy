/** Choice of the workflow transition that moves an issue to a target status
    (the selection loop of `transitionIssue`). */
module Transitions {
  import opened Common
  import opened Text

  /** One transition the server offers: its id, its display name and the name
      of the status it leads to. */
  datatype Transition = Transition(id: string, name: string, toName: string)

  /** A transition leads to the target when its destination status name
      equals the target up to letter case. */
  predicate LeadsTo(t: Transition, target: string)
  {
    EqualFold(t.toName, target)
  }

  /** `i` is the position of the first transition, in server order, that
      leads to the target. */
  predicate IsFirstMatch(ts: seq<Transition>, target: string, i: int)
  {
    0 <= i < |ts| && LeadsTo(ts[i], target) && forall k :: 0 <= k < i ==> !LeadsTo(ts[k], target)
  }

  /** The position of the first transition leading to the target, if any. */
  function FirstMatch(ts: seq<Transition>, target: string): (r: Option<nat>)
    ensures r.Some? ==> IsFirstMatch(ts, target, r.value)
    ensures r.None? <==> forall k :: 0 <= k < |ts| ==> !LeadsTo(ts[k], target)
  {
    if |ts| == 0 then None
    else if LeadsTo(ts[0], target) then Some(0)
    else
      match FirstMatch(ts[1..], target)
      case None => None
      case Some(i) =>
        assert forall k :: 1 <= k <= i ==> ts[k] == ts[1..][k - 1];
        Some(i + 1)
  }

  /** The id of the transition to apply: the first transition leading to the
      target, provided its id is non-empty. Nothing is chosen when no
      transition leads there, and also when the first one that does has an
      empty id, whatever transitions follow it. */
  function SelectTransition(ts: seq<Transition>, target: string): (r: Option<string>)
    ensures r.Some? <==> exists i :: IsFirstMatch(ts, target, i) && ts[i].id != ""
    ensures forall i :: IsFirstMatch(ts, target, i) && ts[i].id != "" ==> r == Some(ts[i].id)
    ensures r.Some? ==> r.value != ""
  {
    match FirstMatch(ts, target)
    case None => None
    case Some(i) =>
      FirstMatchUnique(ts, target, i);
      if ts[i].id != "" then Some(ts[i].id) else None
  }

  /** There is at most one first match. */
  lemma FirstMatchUnique(ts: seq<Transition>, target: string, i: int)
    requires IsFirstMatch(ts, target, i)
    ensures forall j :: IsFirstMatch(ts, target, j) ==> j == i
  {
  }

  /** The choice depends on the target only up to letter case. */
  lemma SelectIgnoresCase(ts: seq<Transition>, a: string, b: string)
    requires EqualFold(a, b)
    ensures SelectTransition(ts, a) == SelectTransition(ts, b)
  {
    forall t: Transition
      ensures LeadsTo(t, a) <==> LeadsTo(t, b)
    {
      EqualFoldEquivalence(t.toName, a, b);
      EqualFoldEquivalence(t.toName, b, a);
      EqualFoldEquivalence(a, b, b);
    }
    assert forall i :: IsFirstMatch(ts, a, i) <==> IsFirstMatch(ts, b, i);
  }
}
