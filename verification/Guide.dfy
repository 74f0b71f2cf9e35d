/** The guide as the code keeps it: a title and a vector of steps edited in place. */
module GuideObject {
  import opened Models
  import opened GuideModel

  class GuideDocument {
    var title: string
    var steps: seq<GuideStep>

    function State(): Guide
      reads this
    {
      Guide(title, steps)
    }

    constructor FromCandidates(candidates: seq<CandidateStep>)
      ensures State() == GuideModel.FromCandidates(candidates)
    {
      var made := [];
      var i := 0;
      while i < |candidates|
        invariant 0 <= i <= |candidates|
        invariant |made| == i && forall j | 0 <= j < i :: made[j] == StepOf(candidates[j], j + 1)
      {
        made := made + [StepOf(candidates[i], i + 1)];
        i := i + 1;
      }
      title := DEFAULT_GUIDE_TITLE;
      steps := made;
      new;
      assert steps == GuideModel.FromCandidates(candidates).steps;
    }

    method Find(index: nat) returns (i: nat)
      ensures i == FindStep(steps, index)
    {
      i := 0;
      while i < |steps| && steps[i].index != index
        invariant 0 <= i <= |steps|
        invariant forall j | 0 <= j < i :: steps[j].index != index
      {
        i := i + 1;
      }
      ghost var found := FindStep(steps, index);
      assert found < |steps| ==> steps[found].index == index;
    }

    method SetTitle(newTitle: string)
      modifies this`title
      ensures State() == old(State()).(title := newTitle)
    {
      title := newTitle;
    }

    method Rename(index: nat, newTitle: string) returns (done: bool)
      modifies this`steps
      ensures (State(), done) == GuideModel.Rename(old(State()), index, newTitle)
    {
      var i := Find(index);
      done := i < |steps|;
      if done {
        steps := steps[i := steps[i].(title := newTitle)];
      }
    }

    method SetTitleAndCaption(index: nat, newTitle: string, caption: string) returns (done: bool)
      modifies this`steps
      ensures (State(), done) == GuideModel.SetTitleAndCaption(old(State()), index, newTitle, caption)
    {
      var i := Find(index);
      done := i < |steps|;
      if done {
        steps := steps[i := steps[i].(title := newTitle, caption := caption)];
      }
    }

    method SetCaption(index: nat, caption: string) returns (done: bool)
      modifies this`steps
      ensures (State(), done) == GuideModel.SetCaption(old(State()), index, caption)
    {
      var i := Find(index);
      done := i < |steps|;
      if done {
        steps := steps[i := steps[i].(caption := caption)];
      }
    }

    /** Delete a step and renumber the remainder in place. */
    method Delete(index: nat) returns (done: bool)
      modifies this`steps
      ensures (State(), done) == GuideModel.Delete(old(State()), index)
    {
      var before := |steps|;
      steps := Without(steps, index);
      if |steps| == before {
        return false;
      }
      ghost var kept := steps;
      var i := 0;
      while i < |steps|
        invariant 0 <= i <= |steps| == |kept|
        invariant forall j | 0 <= j < |kept| :: steps[j] == if j < i then kept[j].(index := j + 1) else kept[j]
        invariant title == old(title)
      {
        steps := steps[i := steps[i].(index := i + 1)];
        i := i + 1;
      }
      assert steps == Renumber(kept);
      done := true;
    }

    method ReplaceKeyframe(index: nat, frame: FrameId) returns (done: bool)
      modifies this`steps
      ensures (State(), done) == GuideModel.ReplaceKeyframe(old(State()), index, frame)
    {
      var i := Find(index);
      done := i < |steps| && frame in steps[i].nearby;
      if done {
        steps := steps[i := steps[i].(keyframe := frame)];
      }
    }
  }

  /** Checks a reviewed list of steps: it is accepted exactly if it is not empty,
      numbered from 1, and its sources are positive and distinct. */
  method FromReviewedSteps(title: string, steps: seq<GuideStep>) returns (result: GuideResult)
    ensures result.Made? <==> steps != [] && Numbered(steps) && SourcesUnique(steps)
    ensures result.Made? ==> result.guide == Guide(title, steps)
    ensures result == Refused(EmptyGuide) <==> steps == []
    ensures result == Refused(InvalidStepOrder) <==> steps != [] && !Numbered(steps)
  {
    if steps == [] {
      return Refused(EmptyGuide);
    }
    var i := 0;
    while i < |steps|
      invariant 0 <= i <= |steps|
      invariant forall j | 0 <= j < i :: steps[j].index == j + 1
    {
      if steps[i].index != i + 1 {
        return Refused(InvalidStepOrder);
      }
      i := i + 1;
    }
    var sources: set<CandidateId> := {};
    i := 0;
    while i < |steps|
      invariant 0 <= i <= |steps|
      invariant SourcesUnique(steps[..i])
      invariant forall s :: s in sources <==> exists j | 0 <= j < i :: steps[j].source == s
    {
      if steps[i].source == 0 || steps[i].source in sources {
        return Refused(InvalidStepSource);
      }
      sources := sources + {steps[i].source};
      i := i + 1;
    }
    assert steps[..i] == steps;
    result := Made(Guide(title, steps));
  }
}
