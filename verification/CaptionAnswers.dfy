/** What proposals answer and change, in the caller's own terms: revisions,
    digests, ids and the words of steps. */
module CaptionAnswers {
  import opened Prelude
  import opened Models
  import opened Text
  import opened GuideModel
  import opened CaptionModel

  // ------------------------------------------------------------------ apply

  /** The project is as it was when the proposal was made: a durable one is clean
      and of that revision and digest; an ephemeral guide is never asked. */
  predicate SameProject(origin: CaptionProposalOrigin, context: CaptionApplyContext) {
    context.DurableContext? ==> context.clean && origin == DurableOrigin(context.revision, context.projectionDigest)
  }

  /** Some step still has the source, title, caption and keyframe it had then. */
  predicate StepUnchanged(steps: seq<GuideStep>, base: CaptionSuggestionBase) {
    exists k | 0 <= k < |steps| ::
      && steps[k].source == base.source && steps[k].title == base.title
      && steps[k].caption == base.caption && steps[k].keyframe == base.keyframe
  }

  lemma UnchangedIff(steps: seq<GuideStep>, base: CaptionSuggestionBase)
    requires Numbered(steps) && DistinctSources(steps)
    ensures var k := FindSource(steps, base.source); StepUnchanged(steps, base) <==> k < |steps| && base.MatchesStep(steps[k])
  {
    if StepUnchanged(steps, base) {
      var k :| 0 <= k < |steps| && steps[k].source == base.source && steps[k].title == base.title
               && steps[k].caption == base.caption && steps[k].keyframe == base.keyframe;
      FindSourceUnique(steps, k);
    }
  }

  /** What `apply` answers for a suggestion, and what becomes of it: on another state
      of a durable project it goes stale whatever it was; otherwise, while pending, it
      is applied exactly if its step is unchanged and goes stale if not. The guide
      changes only when it is applied. */
  lemma ApplyDecides(p: CaptionProposal, g: Guide, context: CaptionApplyContext, i: nat)
    requires Numbered(g.steps) && DistinctSources(g.steps) && DistinctIds(p.suggestions) && i < |p.suggestions|
    ensures var s, r := p.suggestions[i], Apply(p, g, context, p.suggestions[i].id);
            var same := StepUnchanged(g.steps, s.base);
            && r.outcome == (if !SameProject(p.origin, context) then OutcomeStale
                             else if s.status != Pending then NotPending
                             else if same then Applied else OutcomeStale)
            && (r.outcome != Applied ==> r.guide == g)
            && r.proposal.origin == p.origin
            && r.proposal.suggestions == p.suggestions[i := s.(status :=
                 if !SameProject(p.origin, context) then Stale
                 else if s.status != Pending then s.status
                 else if same then Accepted else Stale)]
  {
    FindUnique(p.suggestions, i);
    var s := p.suggestions[i];
    UnchangedIff(g.steps, s.base);
    var k := FindSource(g.steps, s.base.source);
    if k < |g.steps| {
      FindNumbered(g.steps, g.steps[k].index);
    }
    assert p.suggestions[i := s] == p.suggestions;
  }

  /** An id no suggestion has changes nothing. */
  lemma ApplyUnknown(p: CaptionProposal, g: Guide, context: CaptionApplyContext, id: nat)
    requires forall i | 0 <= i < |p.suggestions| :: p.suggestions[i].id != id
    ensures Apply(p, g, context, id) == ApplyResult(p, g, if SameProject(p.origin, context) then Missing else OutcomeStale)
  {
  }

  /** What an applied suggestion writes: its title if it has one, and its caption,
      on the step with its source. */
  lemma AppliedWords(p: CaptionProposal, g: Guide, context: CaptionApplyContext, i: nat, k: nat)
    requires Numbered(g.steps) && DistinctSources(g.steps) && DistinctIds(p.suggestions) && i < |p.suggestions|
    requires k < |g.steps| && g.steps[k].source == p.suggestions[i].base.source
    requires Apply(p, g, context, p.suggestions[i].id).outcome == Applied
    ensures var s, r := p.suggestions[i], Apply(p, g, context, p.suggestions[i].id);
            && r.guide.title == g.title && |r.guide.steps| == |g.steps|
            && r.guide.steps[k] == g.steps[k].(caption := s.suggestedCaption,
                 title := if s.suggestedTitle.Some? then s.suggestedTitle.value else g.steps[k].title)
            && forall j | 0 <= j < |g.steps| && j != k :: r.guide.steps[j] == g.steps[j]
  {
    FindUnique(p.suggestions, i);
    FindSourceUnique(g.steps, k);
    FindNumbered(g.steps, g.steps[k].index);
  }

  // -------------------------------------------------------------- apply all

  /** On another state of a durable project `apply_all` leaves the guide alone and
      turns every pending suggestion, and no other, stale. */
  lemma AllRefused(p: CaptionProposal, g: Guide, context: CaptionApplyContext)
    requires !SameProject(p.origin, context)
    ensures var r := ApplyAll(p, g, context);
            && r.guide == g && r.proposal.origin == p.origin && |r.proposal.suggestions| == |p.suggestions|
            && (forall i | 0 <= i < |p.suggestions| ::
                  r.proposal.suggestions[i] == if p.suggestions[i].status == Pending then p.suggestions[i].(status := Stale)
                                               else p.suggestions[i])
            && (forall i | 0 <= i < |r.outcomes| :: r.outcomes[i] == OutcomeStale)
  {
  }

  /** The only suggestion about its step. */
  predicate AloneAbout(suggestions: seq<CaptionSuggestion>, i: nat)
    requires i < |suggestions|
  {
    forall j | 0 <= j < |suggestions| && j != i :: suggestions[j].base.source != suggestions[i].base.source
  }

  lemma OthersUntouched(p: CaptionProposal, g: Guide, context: CaptionApplyContext, j: nat, base: CaptionSuggestionBase)
    requires Numbered(g.steps) && DistinctSources(g.steps) && DistinctIds(p.suggestions) && j < |p.suggestions|
    requires SameProject(p.origin, context) && p.suggestions[j].base.source != base.source
    ensures var g' := Apply(p, g, context, p.suggestions[j].id).guide;
            && Numbered(g'.steps) && DistinctSources(g'.steps)
            && (StepUnchanged(g'.steps, base) <==> StepUnchanged(g.steps, base))
  {
    var g' := Apply(p, g, context, p.suggestions[j].id).guide;
    ApplyDecides(p, g, context, j);
    if g' != g {
      var k := FindSource(g.steps, p.suggestions[j].base.source);
      UnchangedIff(g.steps, p.suggestions[j].base);
      AppliedWords(p, g, context, j, k);
      SameButOne(g.steps, g'.steps, k, base);
    }
  }

  lemma SameButOne(steps: seq<GuideStep>, steps': seq<GuideStep>, k: nat, base: CaptionSuggestionBase)
    requires |steps'| == |steps| && k < |steps| && steps[k].source != base.source
    requires steps'[k] == steps[k].(title := steps'[k].title, caption := steps'[k].caption)
    requires forall j | 0 <= j < |steps| && j != k :: steps'[j] == steps[j]
    requires Numbered(steps) && DistinctSources(steps)
    ensures Numbered(steps') && DistinctSources(steps')
    ensures StepUnchanged(steps', base) <==> StepUnchanged(steps, base)
  {
    if StepUnchanged(steps, base) {
      var j :| 0 <= j < |steps| && steps[j].source == base.source && steps[j].title == base.title
               && steps[j].caption == base.caption && steps[j].keyframe == base.keyframe;
      assert steps'[j] == steps[j];
    }
    if StepUnchanged(steps', base) {
      var j :| 0 <= j < |steps'| && steps'[j].source == base.source && steps'[j].title == base.title
               && steps'[j].caption == base.caption && steps'[j].keyframe == base.keyframe;
      assert steps'[j] == steps[j];
    }
  }

  lemma KeepsIds(p: CaptionProposal, p': CaptionProposal, j: nat, status: CaptionSuggestionStatus)
    requires DistinctIds(p.suggestions) && j < |p.suggestions| && p'.origin == p.origin
    requires p'.suggestions == p.suggestions[j := p.suggestions[j].(status := status)]
    ensures DistinctIds(p'.suggestions)
    ensures forall i | 0 <= i < |p.suggestions| && AloneAbout(p.suggestions, i) :: AloneAbout(p'.suggestions, i)
  {
    forall a, b | 0 <= a < b < |p'.suggestions|
      ensures p'.suggestions[a].id != p'.suggestions[b].id
    {
      assert p.suggestions[a].id != p.suggestions[b].id;
    }
  }

  /** Going through ids, a suggestion that is alone about its step is decided as it
      would be on its own, when its turn comes; before and without that it stays. */
  lemma {:induction false} EachDecides(p: CaptionProposal, g: Guide, context: CaptionApplyContext, ids: seq<nat>, i: nat)
    requires Numbered(g.steps) && DistinctSources(g.steps) && DistinctIds(p.suggestions) && SameProject(p.origin, context)
    requires i < |p.suggestions| && AloneAbout(p.suggestions, i)
    requires forall n | 0 <= n < |ids| :: HasId(p.suggestions, ids[n])
    ensures var s, after := p.suggestions[i], ApplyEach(p, g, context, ids).proposal.suggestions;
            && |after| == |p.suggestions|
            && after[i] == s.(status := if s.status != Pending || s.id !in ids then s.status
                                        else if StepUnchanged(g.steps, s.base) then Accepted else Stale)
    decreases |ids|
  {
    if ids != [] {
      assert HasId(p.suggestions, ids[0]);
      var j :| 0 <= j < |p.suggestions| && p.suggestions[j].id == ids[0];
      var first := Apply(p, g, context, ids[0]);
      ApplyDecides(p, g, context, j);
      KeepsIds(p, first.proposal, j, first.proposal.suggestions[j].status);
      forall n | 0 <= n < |ids| - 1
        ensures HasId(first.proposal.suggestions, ids[1..][n])
      {
        assert ids[1..][n] == ids[n + 1] && HasId(p.suggestions, ids[n + 1]);
        var x :| 0 <= x < |p.suggestions| && p.suggestions[x].id == ids[n + 1];
        assert first.proposal.suggestions[x].id == ids[n + 1];
      }
      if j != i {
        OthersUntouched(p, g, context, j, p.suggestions[i].base);
        assert p.suggestions[i].id != ids[0];
      } else {
        AppliedKeepsGuide(p, g, context, i);
      }
      EachDecides(first.proposal, first.guide, context, ids[1..], i);
    }
  }

  lemma AppliedKeepsGuide(p: CaptionProposal, g: Guide, context: CaptionApplyContext, i: nat)
    requires Numbered(g.steps) && DistinctSources(g.steps) && DistinctIds(p.suggestions) && i < |p.suggestions|
    ensures var g' := Apply(p, g, context, p.suggestions[i].id).guide; Numbered(g'.steps) && DistinctSources(g'.steps)
  {
    var r := Apply(p, g, context, p.suggestions[i].id);
    ApplyTouchesOneStep(p, g, context, p.suggestions[i].id);
  }

  /** On the same project `apply_all` decides every pending suggestion that is alone
      about its step: accepted exactly if the step is unchanged, stale if not. */
  lemma AllDecided(p: CaptionProposal, g: Guide, context: CaptionApplyContext, i: nat)
    requires Numbered(g.steps) && DistinctSources(g.steps) && DistinctIds(p.suggestions) && SameProject(p.origin, context)
    requires i < |p.suggestions| && AloneAbout(p.suggestions, i)
    ensures var s, after := p.suggestions[i], ApplyAll(p, g, context).proposal.suggestions;
            && |after| == |p.suggestions|
            && after[i] == s.(status := if s.status != Pending then s.status
                                        else if StepUnchanged(g.steps, s.base) then Accepted else Stale)
  {
    PendingIdsComplete(p.suggestions);
    PendingIdsKnown(p.suggestions);
    EachDecides(p, g, context, PendingIds(p.suggestions), i);
  }

  predicate HasId(suggestions: seq<CaptionSuggestion>, id: nat) {
    exists j | 0 <= j < |suggestions| :: suggestions[j].id == id
  }

  lemma {:induction false} PendingIdsKnown(suggestions: seq<CaptionSuggestion>)
    ensures forall n | 0 <= n < |PendingIds(suggestions)| :: HasId(suggestions, PendingIds(suggestions)[n])
  {
    if suggestions != [] {
      PendingIdsKnown(suggestions[1..]);
      forall n | 0 <= n < |PendingIds(suggestions)|
        ensures HasId(suggestions, PendingIds(suggestions)[n])
      {
        var skip := if suggestions[0].status == Pending then 1 else 0;
        if n < skip {
          assert suggestions[0].id == PendingIds(suggestions)[n];
        } else {
          assert PendingIds(suggestions)[n] == PendingIds(suggestions[1..])[n - skip];
          IdFurtherOn(suggestions, PendingIds(suggestions)[n]);
        }
      }
    }
  }

  lemma IdFurtherOn(suggestions: seq<CaptionSuggestion>, id: nat)
    requires suggestions != [] && HasId(suggestions[1..], id)
    ensures HasId(suggestions, id)
  {
    var j :| 0 <= j < |suggestions| - 1 && suggestions[1..][j].id == id;
    assert suggestions[j + 1].id == id;
  }

  // ----------------------------------------------------------------- reject

  /** `reject` answers true exactly for a pending suggestion, turns that one Rejected,
      and otherwise changes nothing. */
  lemma RejectDecides(p: CaptionProposal, i: nat)
    requires DistinctIds(p.suggestions) && i < |p.suggestions|
    ensures var s := p.suggestions[i];
            var (p', done) := CaptionModel.Reject(p, s.id);
            && (done <==> s.status == Pending)
            && p' == (if done then p.(suggestions := p.suggestions[i := s.(status := Rejected)]) else p)
  {
    FindUnique(p.suggestions, i);
  }

  lemma RejectUnknown(p: CaptionProposal, id: nat)
    requires forall i | 0 <= i < |p.suggestions| :: p.suggestions[i].id != id
    ensures CaptionModel.Reject(p, id) == (p, false)
  {
  }

  // ----------------------------------------------------------------- drafts

  /** A draft about a step there is, with something to say. */
  predicate Proposable(steps: seq<GuideStep>, draft: CaptionSuggestionDraft) {
    !Blank(draft.caption) && exists k | 0 <= k < |steps| :: steps[k].source == draft.stepSource
  }

  function ProposableCount(steps: seq<GuideStep>, drafts: seq<CaptionSuggestionDraft>): (n: nat)
    ensures n <= |drafts|
  {
    if drafts == [] then 0
    else ProposableCount(steps, drafts[..|drafts| - 1]) + if Proposable(steps, drafts[|drafts| - 1]) then 1 else 0
  }

  /** The suggestion that stands for the draft: about the words of the step with its
      source, with its title unless that is blank, and its caption, trimmed. */
  predicate Proposes(s: CaptionSuggestion, draft: CaptionSuggestionDraft, steps: seq<GuideStep>) {
    && s.status == Pending
    && s.suggestedCaption == Trim(draft.caption)
    && s.suggestedTitle == (if draft.title.Some? && !Blank(draft.title.value) then draft.title else None)
    && exists k | 0 <= k < |steps| ::
         && steps[k].source == draft.stepSource
         && s.base == CaptionSuggestionBase(steps[k].source, steps[k].index, steps[k].title, steps[k].caption, steps[k].keyframe)
  }

  lemma AddDraftProposes(steps: seq<GuideStep>, made: seq<CaptionSuggestion>, draft: CaptionSuggestionDraft)
    ensures var more := AddDraft(steps, made, draft);
            if Proposable(steps, draft) then
              |more| == |made| + 1 && more[..|made|] == made && Proposes(more[|made|], draft, steps) && more[|made|].id == |made| + 1
            else more == made
  {
    TrimFacts(draft.caption);
    if draft.title.Some? {
      TrimFacts(draft.title.value);
    }
    var i := FindSource(steps, draft.stepSource);
    if i < |steps| {
      assert steps[i].source == draft.stepSource;
    }
  }

  lemma {:induction false} DraftsCounted(steps: seq<GuideStep>, drafts: seq<CaptionSuggestionDraft>)
    ensures |FromDrafts(steps, drafts)| == ProposableCount(steps, drafts)
  {
    if drafts != [] {
      DraftsCounted(steps, drafts[..|drafts| - 1]);
      AddDraftProposes(steps, FromDrafts(steps, drafts[..|drafts| - 1]), drafts[|drafts| - 1]);
    }
  }

  /** Earlier suggestions stay as they are when later drafts come. */
  lemma DraftsGrow(steps: seq<GuideStep>, drafts: seq<CaptionSuggestionDraft>)
    requires drafts != []
    ensures var before := FromDrafts(steps, drafts[..|drafts| - 1]);
            |before| <= |FromDrafts(steps, drafts)| && FromDrafts(steps, drafts)[..|before|] == before
  {
    AddDraftProposes(steps, FromDrafts(steps, drafts[..|drafts| - 1]), drafts[|drafts| - 1]);
  }

  predicate StandsAt(made: seq<CaptionSuggestion>, n: nat, draft: CaptionSuggestionDraft, steps: seq<GuideStep>) {
    n < |made| && made[n].id == n + 1 && Proposes(made[n], draft, steps)
  }

  lemma StandsLater(before: seq<CaptionSuggestion>, made: seq<CaptionSuggestion>, n: nat, draft: CaptionSuggestionDraft,
                    steps: seq<GuideStep>)
    requires StandsAt(before, n, draft, steps) && |before| <= |made| && made[..|before|] == before
    ensures StandsAt(made, n, draft, steps)
  {
    assert made[n] == made[..|before|][n];
  }

  lemma LastProposed(steps: seq<GuideStep>, drafts: seq<CaptionSuggestionDraft>)
    requires drafts != [] && Proposable(steps, drafts[|drafts| - 1])
    ensures StandsAt(FromDrafts(steps, drafts), ProposableCount(steps, drafts[..|drafts| - 1]), drafts[|drafts| - 1], steps)
  {
    DraftsCounted(steps, drafts[..|drafts| - 1]);
    AddDraftProposes(steps, FromDrafts(steps, drafts[..|drafts| - 1]), drafts[|drafts| - 1]);
  }

  /** The drafts that become suggestions are exactly the proposable ones, in order:
      there are as many suggestions, and each such draft stands at its number. */
  lemma {:induction false} DraftProposed(steps: seq<GuideStep>, drafts: seq<CaptionSuggestionDraft>, j: nat)
    requires j < |drafts| && Proposable(steps, drafts[j])
    ensures StandsAt(FromDrafts(steps, drafts), ProposableCount(steps, drafts[..j]), drafts[j], steps)
  {
    var before := drafts[..|drafts| - 1];
    if j < |drafts| - 1 {
      DraftProposed(steps, before, j);
      DraftsGrow(steps, drafts);
      assert before[..j] == drafts[..j];
      StandsLater(FromDrafts(steps, before), FromDrafts(steps, drafts), ProposableCount(steps, drafts[..j]), drafts[j], steps);
    } else {
      LastProposed(steps, drafts);
    }
  }
}
