/** The transition lock of the TypeScript theme provider (`ThemeWrapper`): a theme change
    puts the `theme-transitioning` class on the root for 1200 ms, and a newer change or an
    unmount cancels the pending lock instead of stacking a second one. */
module ThemeProvider {
  import opened Wrappers
  import opened Dom

  /** How long the lock class stays on the root, in milliseconds. */
  const TRANSITION_MS: int := 1200

  class ThemeWrapper {
    const w: Window
    var isInitialMount: bool
    var prevTheme: Option<string>
    var isTransitioning: bool
    /** Deadline of the pending removal timer, if one is scheduled. */
    var timer: Option<int>
    /** Whether the last effect run returned a cleanup function. */
    var cleanupPending: bool
    /** The `theme` dependency of the last effect run; None before the first commit. */
    var lastTheme: Option<Option<string>>
    var unmounted: bool

    /** A pending timer always belongs to a live lock: the flag is set, the class is on the
        root and a cleanup is armed; after the first commit `prevTheme` is the theme the
        effect last saw. */
    ghost predicate Valid()
      reads this, w
    {
      && (timer.Some? ==> isTransitioning && TRANSITION_CLASS in w.rootClasses && cleanupPending)
      && (isInitialMount <==> lastTheme == None)
      && (isInitialMount ==> !cleanupPending && timer == None)
      && (!isInitialMount ==> lastTheme == Some(prevTheme))
    }

    constructor (w: Window)
      ensures Valid() && this.w == w
      ensures isInitialMount && prevTheme == None && !isTransitioning
      ensures timer == None && !cleanupPending && lastTheme == None && !unmounted
    {
      this.w := w;
      isInitialMount := true;
      prevTheme := None;
      isTransitioning := false;
      timer := None;
      cleanupPending := false;
      lastTheme := None;
      unmounted := false;
    }

    /** The cleanup returned by a run that started a lock: clear the timer, remove the class. */
    method Cleanup()
      requires Valid()
      modifies this, w`rootClasses
      ensures Valid()
      ensures old(cleanupPending) ==> timer == None && w.rootClasses == old(w.rootClasses) - {TRANSITION_CLASS}
      ensures !old(cleanupPending) ==> timer == old(timer) && w.rootClasses == old(w.rootClasses)
      ensures !cleanupPending
      ensures isInitialMount == old(isInitialMount) && prevTheme == old(prevTheme)
      ensures isTransitioning == old(isTransitioning) && lastTheme == old(lastTheme) && unmounted == old(unmounted)
    {
      if cleanupPending {
        timer := None;
        w.rootClasses := w.rootClasses - {TRANSITION_CLASS};
        cleanupPending := false;
      }
    }

    /** A render with `theme` at time `now`, followed by its commit. The effect runs when
        `theme` differs from its last run (after the previous run's cleanup): the first run
        only records the theme; a later run, which always sees a changed theme, adds the
        class, sets the flag, records the theme and schedules the removal. */
    method Render(theme: Option<string>, now: int)
      requires Valid() && !unmounted
      modifies this, w`rootClasses
      ensures Valid() && !unmounted
      ensures old(lastTheme) == Some(theme) ==>
                w.rootClasses == old(w.rootClasses) && timer == old(timer) && isTransitioning == old(isTransitioning)
                && prevTheme == old(prevTheme) && cleanupPending == old(cleanupPending)
      ensures old(lastTheme) == None ==>
                !isInitialMount && prevTheme == theme && w.rootClasses == old(w.rootClasses)
                && timer == None && !cleanupPending && isTransitioning == old(isTransitioning)
      ensures old(lastTheme).Some? && old(lastTheme) != Some(theme) ==>
                && prevTheme == theme && isTransitioning && cleanupPending
                && timer == Some(now + TRANSITION_MS)
                && w.rootClasses == (old(w.rootClasses) - {TRANSITION_CLASS}) + {TRANSITION_CLASS}
      ensures lastTheme == Some(theme)
    {
      if lastTheme == Some(theme) {
        return;
      }
      Cleanup();
      lastTheme := Some(theme);
      if isInitialMount {
        isInitialMount := false;
        prevTheme := theme;
        return;
      }
      if theme != prevTheme {
        w.rootClasses := w.rootClasses + {TRANSITION_CLASS};
        isTransitioning := true;
        timer := Some(now + TRANSITION_MS);
        prevTheme := theme;
        cleanupPending := true;
      }
    }

    /** Time passes to `now`: a due timer removes the class and clears the flag. */
    method Advance(now: int)
      requires Valid()
      modifies this, w`rootClasses
      ensures Valid()
      ensures old(timer).Some? && now >= old(timer).value ==>
                timer == None && !isTransitioning && w.rootClasses == old(w.rootClasses) - {TRANSITION_CLASS}
      ensures !(old(timer).Some? && now >= old(timer).value) ==>
                timer == old(timer) && isTransitioning == old(isTransitioning) && w.rootClasses == old(w.rootClasses)
      ensures isInitialMount == old(isInitialMount) && prevTheme == old(prevTheme) && unmounted == old(unmounted)
      ensures lastTheme == old(lastTheme) && cleanupPending == old(cleanupPending)
    {
      if timer.Some? && now >= timer.value {
        w.rootClasses := w.rootClasses - {TRANSITION_CLASS};
        isTransitioning := false;
        timer := None;
      }
    }

    /** Unmount runs the pending cleanup: no timer survives and the class is gone. */
    method Unmount()
      requires Valid() && !unmounted
      modifies this, w`rootClasses
      ensures Valid() && unmounted && timer == None && !cleanupPending
      ensures isInitialMount == old(isInitialMount) && prevTheme == old(prevTheme)
      ensures isTransitioning == old(isTransitioning) && lastTheme == old(lastTheme)
      ensures old(cleanupPending) ==> w.rootClasses == old(w.rootClasses) - {TRANSITION_CLASS}
      ensures !old(cleanupPending) ==> w.rootClasses == old(w.rootClasses)
    {
      Cleanup();
      unmounted := true;
    }
  }

  /** Two changes 500 ms apart: the second lock replaces the first, so the class comes off
      1200 ms after the second change and not at the first change's deadline. */
  method QuickSuccession(t0: int) returns (lockedAtFirstDeadline: bool, lockedAfterSecond: bool)
    ensures lockedAtFirstDeadline && !lockedAfterSecond
  {
    var w := new Window(None, true, {}, None);
    var wrapper := new ThemeWrapper(w);
    wrapper.Render(Some("dark"), t0);
    wrapper.Render(Some("light"), t0);
    wrapper.Render(Some("dark"), t0 + 500);
    wrapper.Advance(t0 + TRANSITION_MS);
    lockedAtFirstDeadline := TRANSITION_CLASS in w.rootClasses;
    wrapper.Advance(t0 + 500 + TRANSITION_MS);
    lockedAfterSecond := TRANSITION_CLASS in w.rootClasses;
  }
}
