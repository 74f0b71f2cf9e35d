/** Caption proposals: suggestions made about one state of a guide, applied to a
    later one only where that later state still says the same. */
module CaptionModel {
  import opened Prelude
  import opened Models
  import opened Text
  import opened GuideModel

  type Digest = int

  datatype CaptionProposalOrigin =
    | DurableOrigin(revision: nat, projectionDigest: Digest)
    | EphemeralOrigin(guideDigest: Digest)

  datatype CaptionApplyContext =
    | DurableContext(revision: nat, projectionDigest: Digest, clean: bool)
    | EphemeralContext

  datatype CaptionSuggestionDraft = CaptionSuggestionDraft(stepSource: CandidateId, title: Option<string>, caption: string)

  datatype CaptionSuggestionBase = CaptionSuggestionBase(
    source: CandidateId, index: nat, title: string, caption: string, keyframe: FrameId)
  {
    /** The step still says what the suggestion was made about; its index may differ. */
    predicate MatchesStep(s: GuideStep) {
      source == s.source && title == s.title && caption == s.caption && keyframe == s.keyframe
    }
  }

  datatype CaptionSuggestionStatus = Pending | Accepted | Rejected | Stale

  datatype CaptionSuggestion = CaptionSuggestion(
    id: nat, base: CaptionSuggestionBase, suggestedTitle: Option<string>, suggestedCaption: string,
    status: CaptionSuggestionStatus)

  datatype CaptionProposal = CaptionProposal(origin: CaptionProposalOrigin, suggestions: seq<CaptionSuggestion>)

  datatype CaptionApplyOutcome = Applied | Missing | OutcomeStale | NotPending

  /** What an apply leaves: the proposal, the guide, and its answer. */
  datatype ApplyResult = ApplyResult(proposal: CaptionProposal, guide: Guide, outcome: CaptionApplyOutcome)

  function BaseOf(s: GuideStep): CaptionSuggestionBase {
    CaptionSuggestionBase(s.source, s.index, s.title, s.caption, s.keyframe)
  }

  /** The first step with the source, or the number of steps. */
  function FindSource(steps: seq<GuideStep>, source: CandidateId): (i: nat)
    ensures i <= |steps|
    ensures i < |steps| ==> steps[i].source == source
    ensures forall j | 0 <= j < i :: steps[j].source != source
  {
    if steps == [] then 0 else if steps[0].source == source then 0 else 1 + FindSource(steps[1..], source)
  }

  function FindSuggestion(suggestions: seq<CaptionSuggestion>, id: nat): (i: nat)
    ensures i <= |suggestions|
    ensures i < |suggestions| ==> suggestions[i].id == id
    ensures forall j | 0 <= j < i :: suggestions[j].id != id
  {
    if suggestions == [] then 0 else if suggestions[0].id == id then 0 else 1 + FindSuggestion(suggestions[1..], id)
  }

  /** The suggestions for the drafts, in order: drafts about unknown steps or with
      blank captions are skipped, the others numbered from 1. */
  function FromDrafts(steps: seq<GuideStep>, drafts: seq<CaptionSuggestionDraft>): seq<CaptionSuggestion> {
    if drafts == [] then [] else AddDraft(steps, FromDrafts(steps, drafts[..|drafts| - 1]), drafts[|drafts| - 1])
  }

  function AddDraft(steps: seq<GuideStep>, made: seq<CaptionSuggestion>, draft: CaptionSuggestionDraft): seq<CaptionSuggestion> {
    var i := FindSource(steps, draft.stepSource);
    if i == |steps| || Trim(draft.caption) == "" then made
    else
      made + [CaptionSuggestion(|made| + 1, BaseOf(steps[i]),
                                if draft.title.Some? && Trim(draft.title.value) != "" then draft.title else None,
                                Trim(draft.caption), Pending)]
  }

  function WithStatus(p: CaptionProposal, i: nat, status: CaptionSuggestionStatus): CaptionProposal
    requires i < |p.suggestions|
  {
    p.(suggestions := p.suggestions[i := p.suggestions[i].(status := status)])
  }

  /** A durable context must be clean and of the revision and digest the proposal was made from. */
  predicate ContextValid(origin: CaptionProposalOrigin, context: CaptionApplyContext) {
    match context
    case EphemeralContext => true
    case DurableContext(revision, digest, clean) =>
      clean && origin.DurableOrigin? && origin.revision == revision && origin.projectionDigest == digest
  }

  function Apply(p: CaptionProposal, g: Guide, context: CaptionApplyContext, id: nat): ApplyResult {
    var i := FindSuggestion(p.suggestions, id);
    if !ContextValid(p.origin, context) then
      ApplyResult(if i < |p.suggestions| then WithStatus(p, i, Stale) else p, g, OutcomeStale)
    else if i == |p.suggestions| then ApplyResult(p, g, Missing)
    else if p.suggestions[i].status != Pending then ApplyResult(p, g, NotPending)
    else
      var s := p.suggestions[i];
      var k := FindSource(g.steps, s.base.source);
      if k == |g.steps| || !s.base.MatchesStep(g.steps[k]) then ApplyResult(WithStatus(p, i, Stale), g, OutcomeStale)
      else
        var (g', done) := SetTitleAndCaption(g, g.steps[k].index, s.suggestedTitle.GetOr(g.steps[k].title), s.suggestedCaption);
        if done then ApplyResult(WithStatus(p, i, Accepted), g', Applied)
        else ApplyResult(WithStatus(p, i, Stale), g', OutcomeStale)
  }

  function Reject(p: CaptionProposal, id: nat): (CaptionProposal, bool) {
    var i := FindSuggestion(p.suggestions, id);
    if i == |p.suggestions| || p.suggestions[i].status != Pending then (p, false) else (WithStatus(p, i, Rejected), true)
  }

  function PendingIds(suggestions: seq<CaptionSuggestion>): seq<nat> {
    if suggestions == [] then []
    else (if suggestions[0].status == Pending then [suggestions[0].id] else []) + PendingIds(suggestions[1..])
  }

  function StaleIfPending(s: CaptionSuggestion): CaptionSuggestion {
    if s.status == Pending then s.(status := Stale) else s
  }

  datatype AllResult = AllResult(proposal: CaptionProposal, guide: Guide, outcomes: seq<CaptionApplyOutcome>)

  function ApplyEach(p: CaptionProposal, g: Guide, context: CaptionApplyContext, ids: seq<nat>): AllResult
    decreases |ids|
  {
    if ids == [] then AllResult(p, g, [])
    else
      var first := Apply(p, g, context, ids[0]);
      var rest := ApplyEach(first.proposal, first.guide, context, ids[1..]);
      AllResult(rest.proposal, rest.guide, [first.outcome] + rest.outcomes)
  }

  function ApplyAll(p: CaptionProposal, g: Guide, context: CaptionApplyContext): AllResult {
    if !ContextValid(p.origin, context) then
      AllResult(p.(suggestions := seq(|p.suggestions|, i requires 0 <= i < |p.suggestions| => StaleIfPending(p.suggestions[i]))),
                g, seq(|PendingIds(p.suggestions)|, _ => OutcomeStale))
    else ApplyEach(p, g, context, PendingIds(p.suggestions))
  }

  // ----------------------------------------------------------- properties

  predicate DistinctIds(suggestions: seq<CaptionSuggestion>) {
    forall i, j | 0 <= i < j < |suggestions| :: suggestions[i].id != suggestions[j].id
  }

  predicate DistinctSources(steps: seq<GuideStep>) {
    forall i, j | 0 <= i < j < |steps| :: steps[i].source != steps[j].source
  }

  lemma {:induction false} DraftsNumbered(steps: seq<GuideStep>, drafts: seq<CaptionSuggestionDraft>)
    ensures |FromDrafts(steps, drafts)| <= |drafts|
    ensures AllMade(FromDrafts(steps, drafts), steps)
    ensures DistinctIds(FromDrafts(steps, drafts))
  {
    if drafts != [] {
      DraftsNumbered(steps, drafts[..|drafts| - 1]);
      AddDraftMade(steps, FromDrafts(steps, drafts[..|drafts| - 1]), drafts[|drafts| - 1]);
    }
    MadeDistinct(FromDrafts(steps, drafts), steps);
  }

  /** A new suggestion: numbered, undecided, with a trimmed caption, about a step there is. */
  predicate Made(s: CaptionSuggestion, id: nat, steps: seq<GuideStep>) {
    && s.id == id && s.status == Pending
    && s.suggestedCaption != "" && Trim(s.suggestedCaption) == s.suggestedCaption
    && exists k | 0 <= k < |steps| :: s.base == BaseOf(steps[k])
  }

  predicate AllMade(made: seq<CaptionSuggestion>, steps: seq<GuideStep>) {
    forall i {:trigger made[i]} | 0 <= i < |made| :: Made(made[i], i + 1, steps)
  }

  lemma AddDraftMade(steps: seq<GuideStep>, made: seq<CaptionSuggestion>, draft: CaptionSuggestionDraft)
    requires AllMade(made, steps)
    ensures AllMade(AddDraft(steps, made, draft), steps) && |made| <= |AddDraft(steps, made, draft)| <= |made| + 1
  {
    TrimFacts(draft.caption);
    var more := AddDraft(steps, made, draft);
    forall i | 0 <= i < |more|
      ensures Made(more[i], i + 1, steps)
    {
      if i < |made| {
        assert more[i] == made[i];
      }
    }
  }

  lemma MadeDistinct(made: seq<CaptionSuggestion>, steps: seq<GuideStep>)
    requires AllMade(made, steps)
    ensures DistinctIds(made)
  {
    forall i, j | 0 <= i < j < |made|
      ensures made[i].id != made[j].id
    {
      assert Made(made[i], i + 1, steps) && Made(made[j], j + 1, steps);
    }
  }

  lemma FindUnique(suggestions: seq<CaptionSuggestion>, i: nat)
    requires DistinctIds(suggestions) && i < |suggestions|
    ensures FindSuggestion(suggestions, suggestions[i].id) == i
  {
    var j := FindSuggestion(suggestions, suggestions[i].id);
    assert j <= i;
  }

  lemma FindSourceUnique(steps: seq<GuideStep>, i: nat)
    requires DistinctSources(steps) && i < |steps|
    ensures FindSource(steps, steps[i].source) == i
  {
    var j := FindSource(steps, steps[i].source);
    assert j <= i;
  }

  /** Applying changes the guide only if it answers Applied, and then only the
      title and caption of the step with the suggestion's source, wherever
      deletions have moved it; the caption becomes the suggested one. */
  lemma ApplyTouchesOneStep(p: CaptionProposal, g: Guide, context: CaptionApplyContext, id: nat)
    requires Numbered(g.steps) && DistinctSources(g.steps)
    ensures var r := Apply(p, g, context, id);
            && r.guide.title == g.title && |r.guide.steps| == |g.steps|
            && (r.outcome != Applied ==> r.guide == g)
            && (r.outcome == Applied ==>
                  var i := FindSuggestion(p.suggestions, id);
                  && i < |p.suggestions| && p.suggestions[i].status == Pending
                  && r.proposal == WithStatus(p, i, Accepted)
                  && exists k | 0 <= k < |g.steps| ::
                       && g.steps[k].source == p.suggestions[i].base.source
                       && p.suggestions[i].base.MatchesStep(g.steps[k])
                       && r.guide.steps == g.steps[k := g.steps[k].(title := p.suggestions[i].suggestedTitle.GetOr(g.steps[k].title),
                                                                   caption := p.suggestions[i].suggestedCaption)])
  {
    var i := FindSuggestion(p.suggestions, id);
    if i < |p.suggestions| {
      var k := FindSource(g.steps, p.suggestions[i].base.source);
      if k < |g.steps| {
        FindNumbered(g.steps, g.steps[k].index);
      }
    }
  }

  /** When a pending suggestion is applied, and when it has gone stale: decided by
      its own step alone. */
  lemma ApplyAnswer(p: CaptionProposal, g: Guide, context: CaptionApplyContext, i: nat)
    requires Numbered(g.steps) && DistinctSources(g.steps) && DistinctIds(p.suggestions)
    requires i < |p.suggestions| && p.suggestions[i].status == Pending && ContextValid(p.origin, context)
    ensures Apply(p, g, context, p.suggestions[i].id).outcome
         == if exists k | 0 <= k < |g.steps| :: p.suggestions[i].base.MatchesStep(g.steps[k]) then Applied else OutcomeStale
  {
    FindUnique(p.suggestions, i);
    var s := p.suggestions[i];
    var found := FindSource(g.steps, s.base.source);
    if found < |g.steps| {
      FindNumbered(g.steps, g.steps[found].index);
    }
    if k :| 0 <= k < |g.steps| && s.base.MatchesStep(g.steps[k]) {
      FindSourceUnique(g.steps, k);
    }
  }

  /** Of two suggestions about the same words of the same step, the first applied
      makes the second stale, unless it changed nothing. */
  lemma SecondGoesStale(p: CaptionProposal, g: Guide, context: CaptionApplyContext, i: nat, j: nat)
    requires Numbered(g.steps) && DistinctSources(g.steps) && DistinctIds(p.suggestions)
    requires i < |p.suggestions| && j < |p.suggestions| && i != j && ContextValid(p.origin, context)
    requires p.suggestions[i].base.source == p.suggestions[j].base.source && p.suggestions[j].status == Pending
    requires Apply(p, g, context, p.suggestions[i].id).outcome == Applied
    requires Apply(p, g, context, p.suggestions[i].id).guide != g
    requires Apply(p, g, context, p.suggestions[j].id).outcome == Applied
    ensures var first := Apply(p, g, context, p.suggestions[i].id);
            Apply(first.proposal, first.guide, context, p.suggestions[j].id).outcome == OutcomeStale
  {
    FindUnique(p.suggestions, i);
    FindUnique(p.suggestions, j);
    var first := Apply(p, g, context, p.suggestions[i].id);
    var k := FindSource(g.steps, p.suggestions[i].base.source);
    FindNumbered(g.steps, g.steps[k].index);
    assert first.guide.steps == g.steps[k := first.guide.steps[k]];
    FindSourceUnique(first.guide.steps, k);
    assert DistinctIds(first.proposal.suggestions);
    FindUnique(first.proposal.suggestions, j);
  }

  /** A single apply overwrites a decision exactly if the durable context is
      invalid and the suggestion was decided otherwise than Stale. */
  lemma OverwritesDecisionIff(p: CaptionProposal, g: Guide, context: CaptionApplyContext, id: nat, i: nat)
    requires i < |p.suggestions| && p.suggestions[i].status != Pending
    ensures Apply(p, g, context, id).proposal.suggestions[i].status != p.suggestions[i].status <==>
              && !ContextValid(p.origin, context) && FindSuggestion(p.suggestions, id) == i
              && p.suggestions[i].status != Stale
  {
  }

  /** ... which does happen: an accepted suggestion applied again on a dirty project. */
  lemma DecisionOverwritten()
    ensures var base := CaptionSuggestionBase(1, 1, "t", "", 0);
            var p := CaptionProposal(DurableOrigin(1, 0), [CaptionSuggestion(1, base, None, "c", Accepted)]);
            Apply(p, Guide("g", []), DurableContext(1, 0, false), 1).proposal.suggestions[0].status == Stale
  {
    var base := CaptionSuggestionBase(1, 1, "t", "", 0);
    var p := CaptionProposal(DurableOrigin(1, 0), [CaptionSuggestion(1, base, None, "c", Accepted)]);
    assert FindSuggestion(p.suggestions, 1) == 0;
  }

  // ------------------------------------------------------------- apply all

  /** Ids, statuses and everything else of the suggestions, with those pending in `ids` decided. */
  predicate Settled(before: seq<CaptionSuggestion>, after: seq<CaptionSuggestion>, ids: seq<nat>) {
    && |after| == |before|
    && forall i | 0 <= i < |before| ::
         && after[i] == before[i].(status := after[i].status)
         && (before[i].status != Pending || before[i].id !in ids ==> after[i] == before[i])
         && (before[i].status == Pending && before[i].id in ids ==> after[i].status in {Accepted, Stale})
  }

  lemma ApplySettles(p: CaptionProposal, g: Guide, context: CaptionApplyContext, id: nat)
    requires DistinctIds(p.suggestions) && ContextValid(p.origin, context)
    ensures Settled(p.suggestions, Apply(p, g, context, id).proposal.suggestions, [id])
    ensures Apply(p, g, context, id).proposal.origin == p.origin
    ensures DistinctIds(Apply(p, g, context, id).proposal.suggestions)
  {
    forall i | 0 <= i < |p.suggestions|
      ensures FindSuggestion(p.suggestions, p.suggestions[i].id) == i
    {
      FindUnique(p.suggestions, i);
    }
  }

  lemma {:induction false} ApplyEachSettles(p: CaptionProposal, g: Guide, context: CaptionApplyContext, ids: seq<nat>)
    requires DistinctIds(p.suggestions) && ContextValid(p.origin, context)
    ensures Settled(p.suggestions, ApplyEach(p, g, context, ids).proposal.suggestions, ids)
    ensures |ApplyEach(p, g, context, ids).outcomes| == |ids|
    decreases |ids|
  {
    if ids != [] {
      var first := Apply(p, g, context, ids[0]);
      ApplySettles(p, g, context, ids[0]);
      ApplyEachSettles(first.proposal, first.guide, context, ids[1..]);
      assert forall id :: id in ids <==> id == ids[0] || id in ids[1..];
    }
  }

  lemma {:induction false} PendingIdsComplete(suggestions: seq<CaptionSuggestion>)
    ensures forall i | 0 <= i < |suggestions| && suggestions[i].status == Pending :: suggestions[i].id in PendingIds(suggestions)
  {
    if suggestions != [] {
      PendingIdsComplete(suggestions[1..]);
      forall i | 0 <= i < |suggestions| && suggestions[i].status == Pending
        ensures suggestions[i].id in PendingIds(suggestions)
      {
        if i > 0 {
          assert suggestions[1..][i - 1] == suggestions[i];
        }
      }
    }
  }

  /** `apply_all` leaves nothing pending and no decision changed; in an invalid
      durable context it leaves the guide untouched; it answers once per
      suggestion that was pending. */
  lemma ApplyAllSettles(p: CaptionProposal, g: Guide, context: CaptionApplyContext)
    requires DistinctIds(p.suggestions)
    ensures var r := ApplyAll(p, g, context);
            && |r.proposal.suggestions| == |p.suggestions|
            && (forall i | 0 <= i < |p.suggestions| ::
                  && r.proposal.suggestions[i].status != Pending
                  && (p.suggestions[i].status != Pending ==> r.proposal.suggestions[i] == p.suggestions[i]))
            && (!ContextValid(p.origin, context) ==> r.guide == g)
            && |r.outcomes| == |PendingIds(p.suggestions)|
  {
    PendingIdsComplete(p.suggestions);
    if ContextValid(p.origin, context) {
      ApplyEachSettles(p, g, context, PendingIds(p.suggestions));
    }
  }

  /** `apply_all` keeps the guide's numbering and sources, and every step but the
      suggestions' own as it was. */
  lemma {:induction false} ApplyEachKeepsOthers(p: CaptionProposal, g: Guide, context: CaptionApplyContext, ids: seq<nat>)
    requires Numbered(g.steps) && DistinctSources(g.steps) && DistinctIds(p.suggestions) && ContextValid(p.origin, context)
    ensures var g' := ApplyEach(p, g, context, ids).guide;
            && |g'.steps| == |g.steps| && Numbered(g'.steps) && g'.title == g.title
            && forall k | 0 <= k < |g.steps| ::
                 && g'.steps[k] == g.steps[k].(title := g'.steps[k].title, caption := g'.steps[k].caption)
                 && ((forall i | 0 <= i < |p.suggestions| :: p.suggestions[i].base.source != g.steps[k].source) ==>
                       g'.steps[k] == g.steps[k])
    decreases |ids|
  {
    if ids != [] {
      var first := Apply(p, g, context, ids[0]);
      ApplyTouchesOneStep(p, g, context, ids[0]);
      ApplySettles(p, g, context, ids[0]);
      ApplyEachKeepsOthers(first.proposal, first.guide, context, ids[1..]);
    }
  }
}
