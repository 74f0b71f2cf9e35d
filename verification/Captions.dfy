/** A caption proposal as the code keeps it: a vector of suggestions whose
    statuses change in place, applied to a guide edited in place. */
module CaptionObject {
  import opened Prelude
  import opened Models
  import opened Text
  import opened GuideModel
  import opened GuideObject
  import opened CaptionModel

  class ProposalDocument {
    const origin: CaptionProposalOrigin
    var suggestions: seq<CaptionSuggestion>

    function State(): CaptionProposal
      reads this
    {
      CaptionProposal(origin, suggestions)
    }

    constructor FromAgentDrafts(origin: CaptionProposalOrigin, guide: GuideDocument, drafts: seq<CaptionSuggestionDraft>)
      ensures State() == CaptionProposal(origin, FromDrafts(guide.steps, drafts))
    {
      var made := [];
      var n := 0;
      while n < |drafts|
        invariant 0 <= n <= |drafts|
        invariant made == FromDrafts(guide.steps, drafts[..n])
      {
        assert drafts[..n + 1][..n] == drafts[..n] && drafts[..n + 1][n] == drafts[n];
        made := Propose(guide.steps, made, drafts[n]);
        n := n + 1;
      }
      assert drafts[..n] == drafts;
      this.origin := origin;
      this.suggestions := made;
    }

    static method Propose(steps: seq<GuideStep>, made: seq<CaptionSuggestion>, draft: CaptionSuggestionDraft)
      returns (more: seq<CaptionSuggestion>)
      ensures more == AddDraft(steps, made, draft)
    {
      more := made;
      var i := FindSource(steps, draft.stepSource);
      var caption := Trim(draft.caption);
      if i < |steps| && caption != "" {
        var title := if draft.title.Some? && Trim(draft.title.value) != "" then draft.title else None;
        more := more + [CaptionSuggestion(|made| + 1, BaseOf(steps[i]), title, caption, Pending)];
      }
    }

    method SetStatus(i: nat, status: CaptionSuggestionStatus)
      requires i < |suggestions|
      modifies this`suggestions
      ensures State() == WithStatus(old(State()), i, status)
    {
      suggestions := suggestions[i := suggestions[i].(status := status)];
    }

    method Apply(guide: GuideDocument, context: CaptionApplyContext, id: nat) returns (outcome: CaptionApplyOutcome)
      modifies this`suggestions, guide`steps
      ensures ApplyResult(State(), guide.State(), outcome)
           == CaptionModel.Apply(old(State()), old(guide.State()), context, id)
    {
      var i := FindSuggestion(suggestions, id);
      if !ContextValid(origin, context) {
        if i < |suggestions| {
          SetStatus(i, Stale);
        }
        return OutcomeStale;
      }
      if i == |suggestions| {
        return Missing;
      }
      var s := suggestions[i];
      if s.status != Pending {
        return NotPending;
      }
      var k := FindSource(guide.steps, s.base.source);
      if k == |guide.steps| || !s.base.MatchesStep(guide.steps[k]) {
        SetStatus(i, Stale);
        return OutcomeStale;
      }
      var title := s.suggestedTitle.GetOr(guide.steps[k].title);
      var done := guide.SetTitleAndCaption(guide.steps[k].index, title, s.suggestedCaption);
      if done {
        SetStatus(i, Accepted);
        outcome := Applied;
      } else {
        SetStatus(i, Stale);
        outcome := OutcomeStale;
      }
    }

    method Reject(id: nat) returns (done: bool)
      modifies this`suggestions
      ensures (State(), done) == CaptionModel.Reject(old(State()), id)
    {
      var i := FindSuggestion(suggestions, id);
      if i == |suggestions| || suggestions[i].status != Pending {
        return false;
      }
      SetStatus(i, Rejected);
      done := true;
    }

    /** The invalid durable context: every pending suggestion goes stale. */
    method StaleAll() returns (outcomes: seq<CaptionApplyOutcome>)
      modifies this`suggestions
      ensures suggestions == seq(|old(suggestions)|, i requires 0 <= i < |old(suggestions)| => StaleIfPending(old(suggestions)[i]))
      ensures outcomes == seq(|PendingIds(old(suggestions))|, _ => OutcomeStale)
    {
      ghost var before := suggestions;
      outcomes := [];
      var i := 0;
      while i < |suggestions|
        invariant 0 <= i <= |suggestions| == |before|
        invariant forall j | 0 <= j < |before| :: suggestions[j] == if j < i then StaleIfPending(before[j]) else before[j]
        invariant |outcomes| + |PendingIds(before[i..])| == |PendingIds(before)|
        invariant forall j | 0 <= j < |outcomes| :: outcomes[j] == OutcomeStale
      {
        assert before[i..][1..] == before[i + 1..];
        if suggestions[i].status == Pending {
          suggestions := suggestions[i := suggestions[i].(status := Stale)];
          outcomes := outcomes + [OutcomeStale];
        }
        i := i + 1;
      }
    }

    method ApplyAll(guide: GuideDocument, context: CaptionApplyContext) returns (outcomes: seq<CaptionApplyOutcome>)
      modifies this`suggestions, guide`steps
      ensures AllResult(State(), guide.State(), outcomes)
           == CaptionModel.ApplyAll(old(State()), old(guide.State()), context)
    {
      if !ContextValid(origin, context) {
        outcomes := StaleAll();
        return;
      }
      var ids := PendingIds(suggestions);
      ghost var goal := ApplyEach(State(), guide.State(), context, ids);
      outcomes := [];
      var n := 0;
      while n < |ids|
        invariant 0 <= n <= |ids|
        invariant Prefixed(outcomes, ApplyEach(State(), guide.State(), context, ids[n..])) == goal
      {
        EachUnfolds(outcomes, State(), guide.State(), context, ids, n);
        var outcome := Apply(guide, context, ids[n]);
        outcomes := outcomes + [outcome];
        n := n + 1;
      }
      assert ids[n..] == [];
    }
  }
  ghost function Prefixed(outcomes: seq<CaptionApplyOutcome>, rest: AllResult): AllResult {
    AllResult(rest.proposal, rest.guide, outcomes + rest.outcomes)
  }

  lemma EachUnfolds(outcomes: seq<CaptionApplyOutcome>, p: CaptionProposal, g: Guide, context: CaptionApplyContext,
                    ids: seq<nat>, n: nat)
    requires n < |ids|
    ensures var first := CaptionModel.Apply(p, g, context, ids[n]);
            var rest := ApplyEach(first.proposal, first.guide, context, ids[n + 1..]);
            Prefixed(outcomes, ApplyEach(p, g, context, ids[n..])) == Prefixed(outcomes + [first.outcome], rest)
  {
    assert ids[n..][1..] == ids[n + 1..];
  }
}
