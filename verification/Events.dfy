/** Burst coalescing: a run of like activity events becomes its first event. */
module Events {
  import opened Prelude
  import opened Models

  datatype ActivityKind = Typing | Scroll

  function KindOf(action: SemanticAction): Option<ActivityKind> {
    match action
    case TypingActivity => Some(Typing)
    case ScrollActivity => Some(Scroll)
    case Click(_) => None
    case Key(_) => None
  }

  // ---------------------------------------------------------- what is kept

  /** Whether `ev` continues the run that `prev` belongs to. */
  predicate Joins(prev: TimedSemanticAction, ev: TimedSemanticAction, window: Millis) {
    KindOf(ev.action).Some? && KindOf(ev.action) == KindOf(prev.action) && Monus(ev.atMs, prev.atMs) <= window
  }

  predicate Starts(events: seq<TimedSemanticAction>, i: nat, window: Millis)
    requires i < |events|
  {
    i == 0 || !Joins(events[i - 1], events[i], window)
  }

  /** The events that start a run, in order. */
  function Aggregated(events: seq<TimedSemanticAction>, window: Millis): (r: seq<TimedSemanticAction>)
    ensures |r| <= |events|
  {
    if events == [] then [] else
      var n := |events| - 1;
      Aggregated(events[..n], window) + if Starts(events, n, window) then [events[n]] else []
  }

  // ------------------------------------------------- runs, as a partition

  function Flatten(groups: seq<seq<TimedSemanticAction>>): seq<TimedSemanticAction> {
    if groups == [] then [] else Flatten(groups[..|groups| - 1]) + groups[|groups| - 1]
  }

  predicate IsRun(group: seq<TimedSemanticAction>, window: Millis) {
    group != [] && forall i | 0 < i < |group| :: Joins(group[i - 1], group[i], window)
  }

  /** Runs that cannot be extended into one another. */
  predicate MaximalRuns(groups: seq<seq<TimedSemanticAction>>, window: Millis) {
    && (forall g | 0 <= g < |groups| :: IsRun(groups[g], window))
    && forall g | 0 < g < |groups| :: !Joins(groups[g - 1][|groups[g - 1]| - 1], groups[g][0], window)
  }

  function Firsts(groups: seq<seq<TimedSemanticAction>>): seq<TimedSemanticAction>
    requires forall g | 0 <= g < |groups| :: groups[g] != []
  {
    seq(|groups|, g requires 0 <= g < |groups| => groups[g][0])
  }

  lemma AggregatedSnoc(events: seq<TimedSemanticAction>, ev: TimedSemanticAction, window: Millis)
    ensures Aggregated(events + [ev], window)
         == Aggregated(events, window)
            + if events == [] || !Joins(events[|events| - 1], ev, window) then [ev] else []
  {
    assert (events + [ev])[..|events|] == events;
  }

  /** A run adds its first event if it does not continue what came before. */
  lemma {:induction false} AggregatedRun(events: seq<TimedSemanticAction>, run: seq<TimedSemanticAction>, window: Millis)
    requires IsRun(run, window)
    requires events != [] ==> !Joins(events[|events| - 1], run[0], window)
    ensures Aggregated(events + run, window) == Aggregated(events, window) + [run[0]]
  {
    var n := |run| - 1;
    assert events + run == (events + run[..n]) + [run[n]];
    AggregatedSnoc(events + run[..n], run[n], window);
    if n == 0 {
      assert events + run[..n] == events;
    } else {
      AggregatedRun(events, run[..n], window);
      assert Joins(run[n - 1], run[n], window);
    }
  }

  lemma FlattenLast(groups: seq<seq<TimedSemanticAction>>)
    requires groups != [] && groups[|groups| - 1] != []
    ensures var last, all := groups[|groups| - 1], Flatten(groups);
            all != [] && all[|all| - 1] == last[|last| - 1]
  {
  }

  /** However the input is split into maximal runs, the output is their first events. */
  lemma {:induction false} FirstsOfMaximalRuns(groups: seq<seq<TimedSemanticAction>>, window: Millis)
    requires MaximalRuns(groups, window)
    ensures Aggregated(Flatten(groups), window) == Firsts(groups)
  {
    if groups != [] {
      var n := |groups| - 1;
      FirstsOfMaximalRuns(groups[..n], window);
      if n > 0 {
        FlattenLast(groups[..n]);
      }
      AggregatedRun(Flatten(groups[..n]), groups[n], window);
      assert Firsts(groups) == Firsts(groups[..n]) + [groups[n][0]];
    }
  }

  /** One more event joins the last run or starts its own. */
  function AddToRuns(groups: seq<seq<TimedSemanticAction>>, ev: TimedSemanticAction, window: Millis): seq<seq<TimedSemanticAction>>
    requires groups != [] ==> groups[|groups| - 1] != []
  {
    if groups == [] then [[ev]]
    else
      var last := groups[|groups| - 1];
      if Joins(last[|last| - 1], ev, window) then groups[|groups| - 1 := last + [ev]] else groups + [[ev]]
  }

  function RunsOf(events: seq<TimedSemanticAction>, window: Millis): (groups: seq<seq<TimedSemanticAction>>)
    ensures MaximalRuns(groups, window)
  {
    if events == [] then [] else
      var before := RunsOf(events[..|events| - 1], window);
      AddToRunsOk(before, events[|events| - 1], window);
      AddToRuns(before, events[|events| - 1], window)
  }

  lemma AddToRunsOk(groups: seq<seq<TimedSemanticAction>>, ev: TimedSemanticAction, window: Millis)
    requires MaximalRuns(groups, window)
    ensures MaximalRuns(AddToRuns(groups, ev, window), window)
    ensures Flatten(AddToRuns(groups, ev, window)) == Flatten(groups) + [ev]
  {
    if groups == [] {
      assert Flatten([[ev]]) == [ev];
    } else {
      var last := groups[|groups| - 1];
      if Joins(last[|last| - 1], ev, window) {
        JoinsGroup(groups, ev, window);
      } else {
        StartsGroup(groups, ev, window);
      }
    }
  }

  /** Every input does split into maximal runs. */
  lemma {:induction false} RunsExist(events: seq<TimedSemanticAction>, window: Millis)
    ensures Flatten(RunsOf(events, window)) == events && MaximalRuns(RunsOf(events, window), window)
  {
    if events != [] {
      RunsExist(events[..|events| - 1], window);
      AddToRunsOk(RunsOf(events[..|events| - 1], window), events[|events| - 1], window);
    }
  }

  lemma StartsGroup(groups: seq<seq<TimedSemanticAction>>, ev: TimedSemanticAction, window: Millis)
    requires MaximalRuns(groups, window) && groups != []
    requires var last := groups[|groups| - 1]; !Joins(last[|last| - 1], ev, window)
    ensures MaximalRuns(groups + [[ev]], window) && Flatten(groups + [[ev]]) == Flatten(groups) + [ev]
  {
    assert (groups + [[ev]])[..|groups|] == groups;
  }

  lemma JoinsGroup(groups: seq<seq<TimedSemanticAction>>, ev: TimedSemanticAction, window: Millis)
    requires MaximalRuns(groups, window) && groups != []
    requires var last := groups[|groups| - 1]; Joins(last[|last| - 1], ev, window)
    ensures var n := |groups| - 1;
            && MaximalRuns(groups[n := groups[n] + [ev]], window)
            && Flatten(groups[n := groups[n] + [ev]]) == Flatten(groups) + [ev]
  {
    var n := |groups| - 1;
    var groups' := groups[n := groups[n] + [ev]];
    assert groups'[..n] == groups[..n];
    assert IsRun(groups'[n], window);
    forall g | 0 < g <= n
      ensures !Joins(groups'[g - 1][|groups'[g - 1]| - 1], groups'[g][0], window)
    {
      assert groups'[g - 1] == groups[g - 1] && groups'[g][0] == groups[g][0];
    }
  }

  // ------------------------------------------------------ runs of the object

  /** The coalescer's buffer and run state. */
  datatype Aggregator = Aggregator(out: seq<TimedSemanticAction>, lastKind: Option<ActivityKind>, lastAt: Millis)

  const FRESH := Aggregator([], None, 0)

  function Pushed(s: Aggregator, ev: TimedSemanticAction, window: Millis): Aggregator {
    var kind := KindOf(ev.action);
    var folds := kind.Some? && s.lastKind == kind && Monus(ev.atMs, s.lastAt) <= window;
    Aggregator(if folds then s.out else s.out + [ev], kind, ev.atMs)
  }

  datatype Call = Push(ev: TimedSemanticAction) | Drain

  /** Everything drained so far, and the state. */
  function RunCalls(calls: seq<Call>, window: Millis): (r: (seq<TimedSemanticAction>, Aggregator)) {
    if calls == [] then ([], FRESH) else
      var n := |calls| - 1;
      var (drained, s) := RunCalls(calls[..n], window);
      match calls[n]
      case Push(ev) => (drained, Pushed(s, ev, window))
      case Drain => (drained + s.out, s.(out := []))
  }

  function Pushes(calls: seq<Call>): seq<TimedSemanticAction> {
    if calls == [] then [] else
      var n := |calls| - 1;
      Pushes(calls[..n]) + match calls[n] case Push(ev) => [ev] case Drain => []
  }

  lemma {:induction false} RunStateLast(calls: seq<Call>, window: Millis)
    ensures StateAfter(RunCalls(calls, window).1, Pushes(calls))
  {
    if calls != [] {
      RunStateLast(calls[..|calls| - 1], window);
    }
  }

  /** What has been drained, then what is buffered, depends on the pushes alone:
      it does not matter where `drain` was called. */
  lemma {:induction false} DrainsDoNotMatter(calls: seq<Call>, window: Millis)
    ensures var (drained, s) := RunCalls(calls, window); drained + s.out == Aggregated(Pushes(calls), window)
  {
    if calls != [] {
      var n := |calls| - 1;
      DrainsDoNotMatter(calls[..n], window);
      RunStateLast(calls[..n], window);
      if calls[n].Push? {
        var (drained, s) := RunCalls(calls[..n], window);
        PushAggregates(drained, s, Pushes(calls[..n]), calls[n].ev, window);
      } else {
        assert Pushes(calls) == Pushes(calls[..n]);
      }
    }
  }

  /** The run state is that of the last event. */
  predicate StateAfter(s: Aggregator, events: seq<TimedSemanticAction>) {
    if events == [] then s.lastKind == None
    else s.lastKind == KindOf(events[|events| - 1].action) && s.lastAt == events[|events| - 1].atMs
  }

  lemma PushAggregates(drained: seq<TimedSemanticAction>, s: Aggregator, events: seq<TimedSemanticAction>,
                       ev: TimedSemanticAction, window: Millis)
    requires drained + s.out == Aggregated(events, window) && StateAfter(s, events)
    ensures drained + Pushed(s, ev, window).out == Aggregated(events + [ev], window)
  {
    AggregatedSnoc(events, ev, window);
    assert drained + (s.out + [ev]) == drained + s.out + [ev];
  }

  // --------------------------------------------------------- what is never lost

  /** An event continues a run only after one just like it, typing after typing or
      scrolling after scrolling, and no later than the window after that one. */
  lemma JoinsMeans(prev: TimedSemanticAction, ev: TimedSemanticAction, window: Millis)
    ensures Joins(prev, ev, window) <==>
              && ((prev.action == TypingActivity && ev.action == TypingActivity)
                  || (prev.action == ScrollActivity && ev.action == ScrollActivity))
              && ev.atMs <= prev.atMs + window
  {
  }

  /** The clicks and keys among the events, in order. */
  function Others(events: seq<TimedSemanticAction>): seq<TimedSemanticAction> {
    if events == [] then []
    else
      var ev := events[|events| - 1];
      Others(events[..|events| - 1]) + if ev.action.Click? || ev.action.Key? then [ev] else []
  }

  /** Every click and key passes through, and nothing else becomes one. */
  lemma {:induction false} OthersPass(events: seq<TimedSemanticAction>, window: Millis)
    ensures Others(Aggregated(events, window)) == Others(events)
  {
    if events != [] {
      var n := |events| - 1;
      OthersPass(events[..n], window);
      var before := Aggregated(events[..n], window);
      if Starts(events, n, window) {
        assert (before + [events[n]])[..|before|] == before;
      } else {
        assert Aggregated(events, window) == before;
      }
    }
  }

  // ------------------------------------------------------ aggregating again

  predicate TimeOrdered(events: seq<TimedSemanticAction>) {
    forall i, j | 0 <= i < j < |events| :: events[i].atMs <= events[j].atMs
  }

  /** The start of the run that event `i` is in. */
  function HeadOf(events: seq<TimedSemanticAction>, i: nat, window: Millis): (h: nat)
    requires i < |events|
    ensures h <= i && KindOf(events[h].action) == KindOf(events[i].action)
    ensures Starts(events, h, window) && forall k | h < k <= i :: !Starts(events, k, window)
  {
    if Starts(events, i, window) then i else HeadOf(events, i - 1, window)
  }

  /** No run starts so close to the start of the run before it that the two starts would join. */
  predicate StartsApart(events: seq<TimedSemanticAction>, window: Millis) {
    forall i | 0 < i < |events| :: ApartAt(events, i, window)
  }

  predicate ApartAt(events: seq<TimedSemanticAction>, i: nat, window: Millis)
    requires 0 < i < |events|
  {
    Starts(events, i, window) ==> !Joins(events[HeadOf(events, i - 1, window)], events[i], window)
  }

  lemma {:induction false} HeadOfPrefix(events: seq<TimedSemanticAction>, n: nat, i: nat, window: Millis)
    requires i < n <= |events|
    ensures HeadOf(events[..n], i, window) == HeadOf(events, i, window)
  {
    if !Starts(events, i, window) {
      HeadOfPrefix(events, n, i - 1, window);
    }
  }

  /** The last event of the output is the start of the last run. */
  lemma {:induction false} LastKept(events: seq<TimedSemanticAction>, window: Millis)
    requires events != []
    ensures var out := Aggregated(events, window);
            out != [] && out[|out| - 1] == events[HeadOf(events, |events| - 1, window)]
  {
    var n := |events| - 1;
    if !Starts(events, n, window) {
      LastKept(events[..n], window);
      HeadOfPrefix(events, n, n - 1, window);
    }
  }

  lemma ApartPrefix(events: seq<TimedSemanticAction>, window: Millis)
    requires events != []
    ensures var n := |events| - 1;
            StartsApart(events, window) <==> StartsApart(events[..n], window) && (n > 0 ==> ApartAt(events, n, window))
  {
    var n := |events| - 1;
    forall i | 0 < i < n
      ensures ApartAt(events[..n], i, window) == ApartAt(events, i, window)
    {
      HeadOfPrefix(events, n, i - 1, window);
    }
  }

  /** One more start survives the second pass exactly when it is apart from the last. */
  lemma AgainSnoc(before: seq<TimedSemanticAction>, ev: TimedSemanticAction, window: Millis)
    requires before != []
    ensures Stable(before + [ev], window) <==> Stable(before, window) && !Joins(before[|before| - 1], ev, window)
  {
    AggregatedSnoc(before, ev, window);
    if Aggregated(before + [ev], window) == before + [ev] {
      assert |Aggregated(before, window)| <= |before|;
      assert (before + [ev])[..|before|] == before;
    }
  }

  predicate Stable(events: seq<TimedSemanticAction>, window: Millis) { Aggregated(events, window) == events }

  /** One more event keeps the output stable exactly when it is apart. */
  lemma StableStep(events: seq<TimedSemanticAction>, window: Millis)
    requires |events| > 1
    ensures Stable(Aggregated(events, window), window) <==>
              && Stable(Aggregated(events[..|events| - 1], window), window)
              && ApartAt(events, |events| - 1, window)
  {
    var n := |events| - 1;
    if Starts(events, n, window) {
      LastKept(events[..n], window);
      HeadOfPrefix(events, n, n - 1, window);
      AgainSnoc(Aggregated(events[..n], window), events[n], window);
    } else {
      assert Aggregated(events, window) == Aggregated(events[..n], window);
    }
  }

  /** Aggregating twice is aggregating once exactly when run starts are apart. */
  lemma {:induction false} AgainChangesNothingIff(events: seq<TimedSemanticAction>, window: Millis)
    ensures Stable(Aggregated(events, window), window) <==> StartsApart(events, window)
  {
    if |events| > 1 {
      AgainChangesNothingIff(events[..|events| - 1], window);
      ApartPrefix(events, window);
      StableStep(events, window);
    } else if |events| == 1 {
      assert Aggregated(events, window) == events;
    }
  }

  /** On time-ordered input aggregating again changes nothing, and every event is
      stood for by one no later than it. */
  lemma OrderedAgain(events: seq<TimedSemanticAction>, window: Millis)
    requires TimeOrdered(events)
    ensures Stable(Aggregated(events, window), window)
    ensures forall i | 0 <= i < |events| :: events[HeadOf(events, i, window)].atMs <= events[i].atMs
  {
    AgainChangesNothingIff(events, window);
  }

  function TypingAt(at: Millis): TimedSemanticAction { TimedSemanticAction(TypingActivity, at) }

  /** Out of order it may: of typing at 100, 0 and 150 ms with a window of 120 the
      first pass keeps the first and the last, the second pass the first alone. */
  lemma UnorderedAgain()
    ensures Aggregated([TypingAt(100), TypingAt(0), TypingAt(150)], 120) == [TypingAt(100), TypingAt(150)]
    ensures Aggregated([TypingAt(100), TypingAt(150)], 120) == [TypingAt(100)]
  {
    var a, b, c := TypingAt(100), TypingAt(0), TypingAt(150);
    AggregatedSnoc([], a, 120);
    AggregatedSnoc([a], b, 120);
    AggregatedSnoc([a, b], c, 120);
    AggregatedSnoc([a], c, 120);
    assert [a, b] + [c] == [a, b, c] && [a] + [c] == [a, c] && [a] + [b] == [a, b];
    assert [] + [a] == [a];
  }

  // -------------------------------------------------------------- the object

  class EventAggregator {
    const window: Millis
    var out: seq<TimedSemanticAction>
    var lastKind: Option<ActivityKind>
    var lastAt: Millis

    function View(): Aggregator
      reads this
    {
      Aggregator(out, lastKind, lastAt)
    }

    constructor (coalesceWindowMs: Millis)
      ensures View() == FRESH && window == coalesceWindowMs
    {
      window := coalesceWindowMs;
      out, lastKind, lastAt := [], None, 0;
    }

    method Push(ev: TimedSemanticAction)
      modifies this
      ensures View() == Pushed(old(View()), ev, window)
    {
      match KindOf(ev.action)
      case Some(kind) =>
        if lastKind == Some(kind) && Monus(ev.atMs, lastAt) <= window {
          lastAt := ev.atMs;
        } else {
          out := out + [ev];
          lastKind := Some(kind);
          lastAt := ev.atMs;
        }
      case None =>
        out := out + [ev];
        lastKind := None;
        lastAt := ev.atMs;
    }

    /** Run state persists, so a run split across drains still coalesces. */
    method Drain() returns (drained: seq<TimedSemanticAction>)
      modifies this`out
      ensures drained == old(out) && View() == old(View()).(out := [])
    {
      drained := out;
      out := [];
    }
  }
}
