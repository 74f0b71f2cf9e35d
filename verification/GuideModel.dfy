/** The reviewed guide: ordered steps, renumbered on delete. */
module GuideModel {
  import opened Models

  const DEFAULT_GUIDE_TITLE := "Action Guide"

  datatype Guide = Guide(title: string, steps: seq<GuideStep>)

  datatype GuideError = EmptyGuide | InvalidStepOrder | InvalidStepSource
  datatype GuideResult = Made(guide: Guide) | Refused(error: GuideError)

  predicate Numbered(steps: seq<GuideStep>) { forall i | 0 <= i < |steps| :: steps[i].index == i + 1 }

  predicate SourcesUnique(steps: seq<GuideStep>) {
    && (forall i | 0 <= i < |steps| :: steps[i].source != 0)
    && (forall i, j | 0 <= i < j < |steps| :: steps[i].source != steps[j].source)
  }

  function StepOf(c: CandidateStep, index: nat): GuideStep {
    GuideStep(index, DefaultTitle(c.kind), "", c.kind, c.reason, c.atMs, c.keyframe, c.nearby, c.id)
  }

  function FromCandidates(candidates: seq<CandidateStep>): Guide {
    Guide(DEFAULT_GUIDE_TITLE,
          seq(|candidates|, i requires 0 <= i < |candidates| => StepOf(candidates[i], i + 1)))
  }

  /** The first step with the index, or the number of steps. */
  function FindStep(steps: seq<GuideStep>, index: nat): (i: nat)
    ensures i <= |steps|
    ensures i < |steps| ==> steps[i].index == index
    ensures forall j | 0 <= j < i :: steps[j].index != index
  {
    if steps == [] then 0 else if steps[0].index == index then 0 else 1 + FindStep(steps[1..], index)
  }

  function Rename(g: Guide, index: nat, title: string): (Guide, bool) {
    var i := FindStep(g.steps, index);
    if i == |g.steps| then (g, false) else (g.(steps := g.steps[i := g.steps[i].(title := title)]), true)
  }

  function SetTitleAndCaption(g: Guide, index: nat, title: string, caption: string): (Guide, bool) {
    var i := FindStep(g.steps, index);
    if i == |g.steps| then (g, false)
    else (g.(steps := g.steps[i := g.steps[i].(title := title, caption := caption)]), true)
  }

  function SetCaption(g: Guide, index: nat, caption: string): (Guide, bool) {
    var i := FindStep(g.steps, index);
    if i == |g.steps| then (g, false) else (g.(steps := g.steps[i := g.steps[i].(caption := caption)]), true)
  }

  /** The steps with another index, in order. */
  function Without(steps: seq<GuideStep>, index: nat): (r: seq<GuideStep>)
    ensures |r| <= |steps|
  {
    if steps == [] then []
    else if steps[0].index == index then Without(steps[1..], index)
    else [steps[0]] + Without(steps[1..], index)
  }

  function Renumber(steps: seq<GuideStep>): (r: seq<GuideStep>)
    ensures Numbered(r) && |r| == |steps|
  {
    seq(|steps|, i requires 0 <= i < |steps| => steps[i].(index := i + 1))
  }

  function Delete(g: Guide, index: nat): (Guide, bool) {
    var kept := Without(g.steps, index);
    if |kept| == |g.steps| then (g.(steps := kept), false) else (g.(steps := Renumber(kept)), true)
  }

  function ReplaceKeyframe(g: Guide, index: nat, frame: FrameId): (Guide, bool) {
    var i := FindStep(g.steps, index);
    if i == |g.steps| || frame !in g.steps[i].nearby then (g, false)
    else (g.(steps := g.steps[i := g.steps[i].(keyframe := frame)]), true)
  }

  // ---------------------------------------------------------------- edits

  datatype Edit =
    | EditTitle(title: string)
    | EditRename(index: nat, title: string)
    | EditCaption(index: nat, caption: string)
    | EditBoth(index: nat, title: string, caption: string)
    | EditDelete(index: nat)
    | EditKeyframe(index: nat, frame: FrameId)

  function ApplyEdit(g: Guide, e: Edit): Guide {
    match e
    case EditTitle(title) => g.(title := title)
    case EditRename(index, title) => Rename(g, index, title).0
    case EditCaption(index, caption) => SetCaption(g, index, caption).0
    case EditBoth(index, title, caption) => SetTitleAndCaption(g, index, title, caption).0
    case EditDelete(index) => Delete(g, index).0
    case EditKeyframe(index, frame) => ReplaceKeyframe(g, index, frame).0
  }

  function ApplyEdits(g: Guide, edits: seq<Edit>): Guide {
    if edits == [] then g else ApplyEdit(ApplyEdits(g, edits[..|edits| - 1]), edits[|edits| - 1])
  }

  /** Numbering makes an index a position. */
  lemma FindNumbered(steps: seq<GuideStep>, index: nat)
    requires Numbered(steps)
    ensures FindStep(steps, index) == if 1 <= index <= |steps| then index - 1 else |steps|
  {
    if 1 <= index <= |steps| {
      assert steps[index - 1].index == index;
    }
  }

  predicate EditsStep(e: Edit) { e.EditRename? || e.EditCaption? || e.EditBoth? || e.EditKeyframe? }

  /** What a reviewer finds at the edited step: the new words or keyframe, the rest as before. */
  predicate Edited(e: Edit, s: GuideStep, s': GuideStep)
    requires EditsStep(e)
  {
    && s' == s.(title := s'.title, caption := s'.caption, keyframe := s'.keyframe)
    && s'.title == (if e.EditRename? || e.EditBoth? then e.title else s.title)
    && s'.caption == (if e.EditCaption? || e.EditBoth? then e.caption else s.caption)
    && s'.keyframe == (if e.EditKeyframe? && e.frame in s.nearby then e.frame else s.keyframe)
  }

  /** An edit reaches the step at its index and no other; an index past the end reaches none. */
  lemma EditTouchesOneStep(g: Guide, e: Edit)
    requires Numbered(g.steps) && EditsStep(e)
    ensures var g' := ApplyEdit(g, e);
            && g'.title == g.title && |g'.steps| == |g.steps|
            && forall i | 0 <= i < |g.steps| ::
                 if i + 1 == e.index then Edited(e, g.steps[i], g'.steps[i]) else g'.steps[i] == g.steps[i]
  {
    FindNumbered(g.steps, e.index);
  }

  /** Each edit answers whether it found its step, and for a keyframe also whether
      the frame is in that step's strip. */
  lemma EditAnswers(g: Guide, index: nat, title: string, caption: string, frame: FrameId)
    requires Numbered(g.steps)
    ensures Rename(g, index, title).1 <==> 1 <= index <= |g.steps|
    ensures SetCaption(g, index, caption).1 <==> 1 <= index <= |g.steps|
    ensures SetTitleAndCaption(g, index, title, caption).1 <==> 1 <= index <= |g.steps|
    ensures ReplaceKeyframe(g, index, frame).1 <==> 1 <= index <= |g.steps| && frame in g.steps[index - 1].nearby
  {
    FindNumbered(g.steps, index);
  }

  function Sources(steps: seq<GuideStep>): set<CandidateId> { set s | s in steps :: s.source }

  /** Sources are unique if no step takes another's away, and none is zero. */
  lemma {:induction false} SourcesCounted(steps: seq<GuideStep>)
    ensures |Sources(steps)| <= |steps|
    ensures SourcesUnique(steps) <==> 0 !in Sources(steps) && |Sources(steps)| == |steps|
  {
    if steps != [] {
      var n := |steps| - 1;
      SourcesCounted(steps[..n]);
      assert steps == steps[..n] + [steps[n]];
      assert Sources(steps) == Sources(steps[..n]) + {steps[n].source};
    }
  }

  lemma {:induction false} WithoutNone(steps: seq<GuideStep>, index: nat)
    requires forall i | 0 <= i < |steps| :: steps[i].index != index
    ensures Without(steps, index) == steps
  {
    if steps != [] {
      WithoutNone(steps[1..], index);
    }
  }

  lemma {:induction false} WithoutOne(steps: seq<GuideStep>, index: nat, p: nat)
    requires p < |steps| && forall i | 0 <= i < |steps| :: steps[i].index == index <==> i == p
    ensures Without(steps, index) == steps[..p] + steps[p + 1..]
  {
    if p == 0 {
      WithoutNone(steps[1..], index);
      assert steps[..0] + steps[1..] == steps[1..];
    } else {
      WithoutOne(steps[1..], index, p - 1);
      assert [steps[0]] + (steps[1..][..p - 1] + steps[1..][p..]) == steps[..p] + steps[p + 1..];
    }
  }

  /** Deleting removes exactly the step at the index and moves the later ones up. */
  lemma DeleteNumbered(g: Guide, index: nat)
    requires Numbered(g.steps)
    ensures var (g', done) := Delete(g, index);
            && done == (1 <= index <= |g.steps|)
            && g'.title == g.title && Numbered(g'.steps)
            && g'.steps == (if done then Renumber(g.steps[..index - 1] + g.steps[index..]) else g.steps)
  {
    if 1 <= index <= |g.steps| {
      WithoutOne(g.steps, index, index - 1);
    } else {
      WithoutNone(g.steps, index);
    }
  }

  /** A step that still stands for its candidate: only its index, its words and
      the choice of keyframe within its strip are the reviewer's. */
  predicate StandsForCandidate(s: GuideStep, candidates: seq<CandidateStep>) {
    && 1 <= s.source <= |candidates|
    && var c := candidates[s.source - 1];
       s.kind == c.kind && s.reason == c.reason && s.atMs == c.atMs && s.nearby == c.nearby && s.keyframe in s.nearby
  }

  /** Sources increase along the guide, so no two steps stand for one candidate. */
  predicate SourcesIncrease(steps: seq<GuideStep>) {
    forall i, j | 0 <= i < j < |steps| :: steps[i].source < steps[j].source
  }

  predicate Reviewed(g: Guide, candidates: seq<CandidateStep>) {
    && Numbered(g.steps)
    && SourcesIncrease(g.steps)
    && forall i | 0 <= i < |g.steps| :: StandsForCandidate(g.steps[i], candidates)
  }

  /** A guide that stands for its candidates passes the check of reviewed steps. */
  lemma ReviewedAccepted(g: Guide, candidates: seq<CandidateStep>)
    requires Reviewed(g, candidates)
    ensures Numbered(g.steps) && SourcesUnique(g.steps)
  {
    forall i | 0 <= i < |g.steps|
      ensures g.steps[i].source != 0
    {
      assert StandsForCandidate(g.steps[i], candidates);
    }
  }

  lemma StepEditKeeps(g: Guide, i: nat, s: GuideStep, candidates: seq<CandidateStep>)
    requires Reviewed(g, candidates) && i < |g.steps|
    requires s == g.steps[i].(title := s.title, caption := s.caption, keyframe := s.keyframe) && s.keyframe in s.nearby
    ensures Reviewed(g.(steps := g.steps[i := s]), candidates)
  {
    assert StandsForCandidate(g.steps[i], candidates);
  }

  /** The steps but the one at position `p`. */
  function Skip(steps: seq<GuideStep>, p: nat): (r: seq<GuideStep>)
    requires p < |steps|
    ensures |r| == |steps| - 1
    ensures forall i | 0 <= i < |r| :: r[i] == steps[if i < p then i else i + 1]
  {
    steps[..p] + steps[p + 1..]
  }

  lemma SkipKeeps(g: Guide, p: nat, candidates: seq<CandidateStep>)
    requires Reviewed(g, candidates) && p < |g.steps|
    ensures Reviewed(g.(steps := Renumber(Skip(g.steps, p))), candidates)
  {
    var kept := Skip(g.steps, p);
    forall i | 0 <= i < |kept|
      ensures StandsForCandidate(Renumber(kept)[i], candidates)
    {
      assert StandsForCandidate(g.steps[if i < p then i else i + 1], candidates);
    }
  }

  lemma DeleteKeeps(g: Guide, index: nat, candidates: seq<CandidateStep>)
    requires Reviewed(g, candidates)
    ensures Reviewed(Delete(g, index).0, candidates)
  {
    DeleteNumbered(g, index);
    if 1 <= index <= |g.steps| {
      SkipKeeps(g, index - 1, candidates);
    }
  }

  lemma EditKeepsReviewed(g: Guide, e: Edit, candidates: seq<CandidateStep>)
    requires Reviewed(g, candidates)
    ensures Reviewed(ApplyEdit(g, e), candidates)
  {
    if e.EditDelete? {
      DeleteKeeps(g, e.index, candidates);
    } else if !e.EditTitle? {
      var i := FindStep(g.steps, e.index);
      if i < |g.steps| {
        assert StandsForCandidate(g.steps[i], candidates);
        match e
        case EditRename(_, title) => StepEditKeeps(g, i, g.steps[i].(title := title), candidates);
        case EditCaption(_, caption) => StepEditKeeps(g, i, g.steps[i].(caption := caption), candidates);
        case EditBoth(_, title, caption) => StepEditKeeps(g, i, g.steps[i].(title := title, caption := caption), candidates);
        case EditKeyframe(_, frame) =>
          if frame in g.steps[i].nearby {
            StepEditKeeps(g, i, g.steps[i].(keyframe := frame), candidates);
          }
      }
    }
  }

  lemma {:induction false} EditsKeepReviewed(g: Guide, edits: seq<Edit>, candidates: seq<CandidateStep>)
    requires Reviewed(g, candidates)
    ensures Reviewed(ApplyEdits(g, edits), candidates)
  {
    if edits != [] {
      EditsKeepReviewed(g, edits[..|edits| - 1], candidates);
      EditKeepsReviewed(ApplyEdits(g, edits[..|edits| - 1]), edits[|edits| - 1], candidates);
    }
  }

  // ------------------------------------------------------------- storyboard

  /** What the storyboard looks up for each step: its keyframe must be retained. */
  datatype Keyframes = AllFound | KeyframeMissing(index: nat)

  function LookUpKeyframes(steps: seq<GuideStep>, available: set<FrameId>, from: nat): Keyframes
    requires from <= |steps|
    decreases |steps| - from
  {
    if from == |steps| then AllFound
    else if steps[from].keyframe !in available then KeyframeMissing(from + 1)
    else LookUpKeyframes(steps, available, from + 1)
  }

  lemma {:induction false} AllFoundIff(steps: seq<GuideStep>, available: set<FrameId>, from: nat)
    requires from <= |steps|
    ensures LookUpKeyframes(steps, available, from) == AllFound <==>
              forall i | from <= i < |steps| :: steps[i].keyframe in available
    ensures forall k: nat :: LookUpKeyframes(steps, available, from) == KeyframeMissing(k) <==>
              && from < k <= |steps| && steps[k - 1].keyframe !in available
              && forall i | from <= i < k - 1 :: steps[i].keyframe in available
    decreases |steps| - from
  {
    if from < |steps| {
      AllFoundIff(steps, available, from + 1);
    }
  }
}
