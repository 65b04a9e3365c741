/** The TypeScript splash loader: simulated progress on a 100 ms interval, completion on the
    window's load event or after a 3 s fallback, then hiding and the completion callback. */
module Loader {
  import opened Wrappers
  import Math
  import Timers

  const TICK_MS: int := 100
  /** Upper bound (exclusive) of one progress increment. */
  const MAX_STEP: real := 15.0
  /** Delay from completion to hiding, in milliseconds. */
  const HIDE_DELAY_MS: int := 300
  /** Delay from hiding to the completion callback, in milliseconds. */
  const FADE_MS: int := 500
  /** Delay of the fallback completion, in milliseconds. */
  const FALLBACK_MS: int := 3000

  /** The progress one interval tick produces from `prev`, with `r` the random draw in [0, 1):
      100 once `prev` has reached 100, otherwise `prev` plus up to 15. */
  function TickValue(prev: real, r: real): real
  {
    if prev >= 100.0 then 100.0 else prev + r * MAX_STEP
  }

  /** The width of the progress bar, in percent: the progress capped at 100. */
  function DisplayedWidth(progress: real): (r: real)
    ensures r <= 100.0
    ensures progress <= 100.0 ==> r == progress
    ensures progress > 100.0 ==> r == 100.0
  {
    if progress <= 100.0 then progress else 100.0
  }

  /** `Math.round` of the displayed width: the shown percentage, between 0 and 100. */
  function DisplayedPercent(progress: real): (r: int)
    requires progress >= 0.0
    ensures 0 <= r <= 100
  {
    (DisplayedWidth(progress) + 0.5).Floor
  }

  /** A tick below 100 never lowers the progress and adds less than 15; at or above 100 it
      gives exactly 100; the displayed width never decreases. */
  lemma TickProgress(prev: real, r: real)
    requires prev >= 0.0 && 0.0 <= r < 1.0
    ensures prev < 100.0 ==> prev <= TickValue(prev, r) < prev + MAX_STEP
    ensures prev >= 100.0 ==> TickValue(prev, r) == 100.0
    ensures DisplayedWidth(TickValue(prev, r)) >= DisplayedWidth(prev)
  {
  }

  /** The raw progress can overshoot 100 and then drop back to exactly 100 on the next tick;
      only the displayed width is monotone. */
  lemma RawProgressOvershoots()
    ensures TickValue(99.0, 0.9) == 112.5
    ensures TickValue(112.5, 0.5) == 100.0
    ensures DisplayedWidth(112.5) == DisplayedWidth(100.0) == 100.0
  {
  }

  /** The phases of the splash screen. */
  datatype Phase = Loading | Ready | Hidden {
    function Rank(): nat {
      match this
      case Loading => 0
      case Ready => 1
      case Hidden => 2
    }
  }

  class Loader {
    var progress: real
    var isVisible: bool
    var intervalRunning: bool
    /** Whether the `load` listener is registered. */
    var listening: bool
    /** Deadline of the fallback timeout while it is scheduled. */
    var fallback: Option<int>
    /** Deadlines of the pending callbacks that hide the loader. */
    var hideTimers: seq<int>
    /** Deadlines of the pending `onLoadComplete` calls. */
    var completeTimers: seq<int>
    /** How many times `onLoadComplete` has been called. */
    var completions: nat
    var effectRan: bool

    /** Progress is never negative; once completion has been scheduled or has happened the
        progress is 100 and the interval is stopped. */
    ghost predicate Valid()
      reads this
    {
      && progress >= 0.0
      && (|hideTimers| > 0 || |completeTimers| > 0 || !isVisible || completions > 0 ==>
            progress == 100.0 && !intervalRunning)
    }

    /** The current phase: hidden once invisible, ready at 100, loading before. */
    function Phase(): Phase
      reads this
    {
      if !isVisible then Hidden else if progress >= 100.0 then Ready else Loading
    }

    /** Whether the component renders anything. */
    function Renders(): bool
      reads this
    {
      isVisible
    }

    constructor ()
      ensures Valid() && progress == 0.0 && isVisible && Phase() == Loading
      ensures !intervalRunning && !listening && fallback == None && hideTimers == [] && completeTimers == []
      ensures completions == 0 && !effectRan
    {
      progress := 0.0;
      isVisible := true;
      intervalRunning := false;
      listening := false;
      fallback := None;
      hideTimers := [];
      completeTimers := [];
      completions := 0;
      effectRan := false;
    }

    /** `handleLoad`: progress 100, interval stopped, hiding scheduled in 300 ms. It has no
        guard, so it schedules another hide each time it runs. */
    method HandleLoad(now: int)
      requires Valid()
      modifies this`progress, this`intervalRunning, this`hideTimers
      ensures Valid()
      ensures progress == 100.0 && !intervalRunning
      ensures hideTimers == old(hideTimers) + [now + HIDE_DELAY_MS]
      ensures Phase().Rank() >= old(Phase()).Rank()
    {
      progress := 100.0;
      intervalRunning := false;
      hideTimers := hideTimers + [now + HIDE_DELAY_MS];
    }

    /** The mount effect at time `now`: start the interval, complete at once when the document
        is already complete and otherwise listen for `load`, and schedule the fallback. */
    method Mount(readyStateComplete: bool, now: int)
      requires Valid() && !effectRan && !listening && Phase() == Loading && hideTimers == []
      modifies this
      ensures Valid() && effectRan
      ensures fallback == Some(now + FALLBACK_MS)
      ensures readyStateComplete ==> progress == 100.0 && !intervalRunning && !listening && hideTimers == [now + HIDE_DELAY_MS]
      ensures !readyStateComplete ==> progress == old(progress) && intervalRunning && listening && hideTimers == []
      ensures isVisible && completeTimers == old(completeTimers) && completions == old(completions)
    {
      intervalRunning := true;
      if readyStateComplete {
        HandleLoad(now);
      } else {
        listening := true;
      }
      fallback := Some(now + FALLBACK_MS);
      effectRan := true;
    }

    /** One interval tick with random draw `r`; nothing happens once the interval is stopped. */
    method Tick(r: real)
      requires Valid() && 0.0 <= r < 1.0
      modifies this`progress, this`intervalRunning
      ensures Valid()
      ensures old(intervalRunning) ==> progress == TickValue(old(progress), r)
      ensures old(intervalRunning) ==> intervalRunning == (old(progress) < 100.0)
      ensures !old(intervalRunning) ==> progress == old(progress) && !intervalRunning
      ensures DisplayedWidth(progress) >= DisplayedWidth(old(progress))
      ensures Phase().Rank() >= old(Phase()).Rank()
    {
      TickProgress(progress, r);
      if intervalRunning {
        if progress >= 100.0 {
          intervalRunning := false;
          progress := 100.0;
        } else {
          progress := progress + r * MAX_STEP;
        }
      }
    }

    /** The window's `load` event at time `now`. */
    method LoadEvent(now: int)
      requires Valid()
      modifies this`progress, this`intervalRunning, this`hideTimers
      ensures Valid()
      ensures old(listening) ==> progress == 100.0 && !intervalRunning && hideTimers == old(hideTimers) + [now + HIDE_DELAY_MS]
      ensures !old(listening) ==> progress == old(progress) && intervalRunning == old(intervalRunning) && hideTimers == old(hideTimers)
      ensures Phase().Rank() >= old(Phase()).Rank()
    {
      if listening {
        HandleLoad(now);
      }
    }

    /** Time passes to `now`: the fallback runs `handleLoad` when due; each due hide callback
        hides the loader and schedules `onLoadComplete` 500 ms later; each due completion
        callback calls `onLoadComplete`. */
    method Advance(now: int)
      requires Valid()
      modifies this
      ensures Valid()
      ensures var fired := old(fallback).Some? && now >= old(fallback).value;
              && fallback == (if fired then None else old(fallback))
              && hideTimers == Timers.Pending(old(hideTimers), now) + (if fired then [now + HIDE_DELAY_MS] else [])
              && progress == (if fired then 100.0 else old(progress))
              && intervalRunning == (old(intervalRunning) && !fired)
      ensures var due := Timers.CountDue(old(hideTimers), now);
              && isVisible == (old(isVisible) && due == 0)
              && completeTimers == Timers.Pending(old(completeTimers), now) + Timers.Repeat(due, now + FADE_MS)
      ensures completions == old(completions) + Timers.CountDue(old(completeTimers), now)
      ensures listening == old(listening) && effectRan == old(effectRan)
      ensures Phase().Rank() >= old(Phase()).Rank()
    {
      var oldHide := hideTimers;
      var oldComplete := completeTimers;
      Timers.DueAndPendingPartition(oldHide, now);
      Timers.DueAndPendingPartition(oldComplete, now);
      var dueHide := Timers.CountDue(oldHide, now);
      var dueComplete := Timers.CountDue(oldComplete, now);
      hideTimers := Timers.Pending(oldHide, now);
      if fallback.Some? && now >= fallback.value {
        fallback := None;
        HandleLoad(now);
      }
      if dueHide > 0 {
        isVisible := false;
      }
      completeTimers := Timers.Pending(oldComplete, now) + Timers.Repeat(dueHide, now + FADE_MS);
      completions := completions + dueComplete;
    }

    /** Cleanup: the interval, the listener and the fallback are cancelled; already scheduled
        hide and completion callbacks are not. */
    method Unmount()
      requires Valid()
      modifies this`intervalRunning, this`listening, this`fallback
      ensures Valid() && !intervalRunning && !listening && fallback == None
    {
      intervalRunning := false;
      listening := false;
      fallback := None;
    }
  }

  /** With the load event never firing, any ticks in between, the fallback completes the
      loader at 3000 ms and by 3300 ms it renders nothing, having shown 100%. */
  method FallbackHidesLoader(t0: int, draws: seq<real>) returns (rendersAt3000: bool, rendersAt3300: bool, shown: int)
    requires forall i :: 0 <= i < |draws| ==> 0.0 <= draws[i] < 1.0
    ensures rendersAt3000 && !rendersAt3300 && shown == 100
  {
    var loader := new Loader();
    loader.Mount(false, t0);
    for i := 0 to |draws|
      invariant loader.Valid() && loader.isVisible
      invariant loader.fallback == Some(t0 + FALLBACK_MS)
      invariant loader.hideTimers == [] && loader.completeTimers == []
    {
      loader.Tick(draws[i]);
    }
    loader.Advance(t0 + FALLBACK_MS);
    rendersAt3000 := loader.Renders();
    loader.Advance(t0 + FALLBACK_MS + HIDE_DELAY_MS);
    rendersAt3300 := loader.Renders();
    shown := DisplayedPercent(loader.progress);
  }

  /** With the document already complete the loader completes at once, and the unguarded
      fallback completes it again: `onLoadComplete` is called at 800 ms and again at 3800 ms. */
  method CompletesTwice(t0: int) returns (callsAt800: nat, callsAt3800: nat)
    ensures callsAt800 == 1 && callsAt3800 == 2
  {
    var loader := new Loader();
    loader.Mount(true, t0);
    loader.Advance(t0 + HIDE_DELAY_MS);
    loader.Advance(t0 + HIDE_DELAY_MS + FADE_MS);
    callsAt800 := loader.completions;
    loader.Advance(t0 + FALLBACK_MS);
    loader.Advance(t0 + FALLBACK_MS + HIDE_DELAY_MS);
    loader.Advance(t0 + FALLBACK_MS + HIDE_DELAY_MS + FADE_MS);
    callsAt3800 := loader.completions;
  }
}
