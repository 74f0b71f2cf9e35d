/** From recorded frames to the exported guide. */
module GuideTheorems {
  import opened Models
  import opened FrameStoreModel
  import opened RecorderModel
  import opened RecorderInvariant
  import opened RecorderTheorems
  import opened GuideModel

  /** The guide of a recording after any sequence of edits. */
  function ReviewedGuide(cfg: RecorderConfig, inputs: seq<Input>, edits: seq<Edit>): Guide {
    ApplyEdits(FromCandidates(Recording(cfg, inputs).candidates), edits)
  }

  lemma CandidateReviewed(cfg: RecorderConfig, inputs: seq<Input>, i: nat)
    requires i < |Recording(cfg, inputs).candidates|
    ensures var c := Recording(cfg, inputs).candidates[i];
            c.id == i + 1 && c.keyframe in c.nearby
  {
    RecordingRefinesDetection(cfg, inputs);
    var c := Recording(cfg, inputs).candidates[i];
    var _ := SurvivorForCandidate(cfg, AllEmissions(cfg, inputs), |Frames(inputs)|, i);
    var a, b, _ := StripsRetained(cfg, inputs, c);
    assert IdRun(a, b)[c.keyframe - a] == c.keyframe;
  }

  lemma MadeGuideReviewed(cs: seq<CandidateStep>)
    requires forall i | 0 <= i < |cs| :: cs[i].id == i + 1 && cs[i].keyframe in cs[i].nearby
    ensures Reviewed(FromCandidates(cs), cs)
  {
  }

  lemma FreshGuideReviewed(cfg: RecorderConfig, inputs: seq<Input>)
    ensures Reviewed(FromCandidates(Recording(cfg, inputs).candidates), Recording(cfg, inputs).candidates)
  {
    var cs := Recording(cfg, inputs).candidates;
    forall i | 0 <= i < |cs|
      ensures cs[i].id == i + 1 && cs[i].keyframe in cs[i].nearby
    {
      CandidateReviewed(cfg, inputs, i);
    }
    MadeGuideReviewed(cs);
  }

  /** For every recording and every later sequence of edits: steps are numbered
      1, 2, ..., stand for distinct candidates in order, and each step's keyframe
      is in its strip, whose frames are all retained exactly as ingested. */
  lemma EveryStepRetained(cfg: RecorderConfig, inputs: seq<Input>, edits: seq<Edit>, i: nat)
    requires i < |ReviewedGuide(cfg, inputs, edits).steps|
    ensures var s, retained := ReviewedGuide(cfg, inputs, edits).steps[i], Recording(cfg, inputs).store.retained;
            && s.index == i + 1
            && s.keyframe in s.nearby
            && forall id | id in s.nearby :: id in retained && id < |Frames(inputs)| && retained[id] == Frames(inputs)[id]
  {
    var cs := Recording(cfg, inputs).candidates;
    var g := ReviewedGuide(cfg, inputs, edits);
    FreshGuideReviewed(cfg, inputs);
    EditsKeepReviewed(FromCandidates(cs), edits, cs);
    RecordingRefinesDetection(cfg, inputs);
    StepKept(g, cs, i, Recording(cfg, inputs).store.retained, Frames(inputs));
  }

  lemma StepKept(g: Guide, cs: seq<CandidateStep>, i: nat, retained: map<FrameId, StoredFrame>, frames: seq<StoredFrame>)
    requires Reviewed(g, cs) && i < |g.steps|
    requires forall id | id in retained :: id < |frames| && retained[id] == frames[id]
    requires forall c, id | c in cs && id in c.nearby :: id in retained
    ensures var s := g.steps[i];
            && s.index == i + 1 && s.keyframe in s.nearby
            && forall id | id in s.nearby :: id in retained && id < |frames| && retained[id] == frames[id]
  {
    var s := g.steps[i];
    assert StandsForCandidate(s, cs);
    var c := cs[s.source - 1];
    assert c in cs;
    forall id | id in s.nearby
      ensures id in retained
    {
      assert id in c.nearby;
    }
  }

  /** A fresh guide: one step for each candidate, in order, with what was recorded of
      it, a title after its kind, and no caption yet. */
  lemma FreshStep(candidates: seq<CandidateStep>, i: nat)
    requires i < |candidates|
    ensures var g, c := FromCandidates(candidates), candidates[i];
            && |g.steps| == |candidates| && g.title == "Action Guide"
            && var s := g.steps[i];
               && s.index == i + 1 && s.source == c.id && s.caption == ""
               && s.kind == c.kind && s.reason == c.reason && s.atMs == c.atMs
               && s.keyframe == c.keyframe && s.nearby == c.nearby
               && (c.kind.ClickStep? ==> s.title == "Click") && (c.kind.TypingStep? ==> s.title == "Enter text")
               && (c.kind.ScrollStep? ==> s.title == "Scroll") && (c.kind.UiChanged? ==> s.title == "UI changed")
  {
  }

  /** A guide made from a recording never misses a keyframe, however it was edited. */
  lemma KeyframeNeverMissing(cfg: RecorderConfig, inputs: seq<Input>, edits: seq<Edit>)
    ensures LookUpKeyframes(ReviewedGuide(cfg, inputs, edits).steps, Recording(cfg, inputs).store.retained.Keys, 0)
         == AllFound
  {
    var g := ReviewedGuide(cfg, inputs, edits);
    AllFoundIff(g.steps, Recording(cfg, inputs).store.retained.Keys, 0);
    forall i | 0 <= i < |g.steps|
      ensures g.steps[i].keyframe in Recording(cfg, inputs).store.retained.Keys
    {
      EveryStepRetained(cfg, inputs, edits, i);
    }
  }

  /** A guide made from a recording, however it was edited, can be read back as
      reviewed steps unless every step was deleted. */
  lemma GuideAccepted(cfg: RecorderConfig, inputs: seq<Input>, edits: seq<Edit>)
    ensures var steps := ReviewedGuide(cfg, inputs, edits).steps; Numbered(steps) && SourcesUnique(steps)
  {
    var cs := Recording(cfg, inputs).candidates;
    FreshGuideReviewed(cfg, inputs);
    EditsKeepReviewed(FromCandidates(cs), edits, cs);
    ReviewedAccepted(ReviewedGuide(cfg, inputs, edits), cs);
  }

  /** The step at the index is gone; the others are as they were but for their numbers. */
  predicate Renumbered(g: Guide, g': Guide, index: nat) {
    && |g'.steps| == |g.steps| - 1
    && forall i | 0 <= i < |g'.steps| ::
         g'.steps[i] == g.steps[if i < index - 1 then i else i + 1].(index := i + 1)
  }

  lemma DeletedRenumbered(g: Guide, index: nat)
    requires Numbered(g.steps)
    ensures var (g', done) := Delete(g, index);
            && done == (1 <= index <= |g.steps|)
            && (if done then Renumbered(g, g', index) else g' == g)
  {
    DeleteNumbered(g, index);
  }

  /** Deleting a step leaves the others as they were, in order, but for their numbers. */
  lemma DeleteRenumbers(cfg: RecorderConfig, inputs: seq<Input>, edits: seq<Edit>, index: nat)
    ensures var g := ReviewedGuide(cfg, inputs, edits);
            var (g', done) := Delete(g, index);
            && done == (1 <= index <= |g.steps|)
            && (if done then Renumbered(g, g', index) else g' == g)
  {
    GuideAccepted(cfg, inputs, edits);
    DeletedRenumbered(ReviewedGuide(cfg, inputs, edits), index);
  }
}
