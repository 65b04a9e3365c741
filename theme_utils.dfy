/** The current theme-detection hook of the TypeScript build. */
module ThemeUtils {
  import opened Wrappers
  import opened Dom

  /** The effect's dependency values (`defaultTheme` is fixed per hook instance). */
  datatype Deps = Deps(resolvedTheme: Option<string>, mounted: bool)

  /** The value the hook settles on once it has mounted: the resolved theme when it is
      truthy, otherwise the default. */
  function SettledIsDark(resolvedTheme: Option<string>, defaultTheme: string): bool
  {
    if Truthy(resolvedTheme) then resolvedTheme.value == "dark" else defaultTheme == "dark"
  }

  /** `useThemeDetection(defaultTheme)`; `lastDeps` holds the dependency values the
      effect last ran with (None before the first commit). */
  class ThemeDetection {
    const defaultTheme: string
    var mounted: bool
    var isDark: bool
    var lastDeps: Option<Deps>

    /** Both flags start false. */
    constructor (defaultTheme: string)
      requires defaultTheme == "dark" || defaultTheme == "light"
      ensures this.defaultTheme == defaultTheme
      ensures !mounted && !isDark && lastDeps == None
    {
      this.defaultTheme := defaultTheme;
      mounted := false;
      isDark := false;
      lastDeps := None;
    }

    /** One run of the effect. It sees the `mounted` value of the render that scheduled it,
        so the resolved theme is used only once a previous run has set `mounted`. */
    method Effect(resolvedTheme: Option<string>)
      modifies this`mounted, this`isDark
      ensures mounted
      ensures isDark == if old(mounted) && Truthy(resolvedTheme) then resolvedTheme.value == "dark"
                        else defaultTheme == "dark"
    {
      var seenMounted := mounted;
      mounted := true;
      isDark := if seenMounted && Truthy(resolvedTheme) then resolvedTheme.value == "dark" else defaultTheme == "dark";
    }

    /** A render followed by its commit: the effect runs iff its dependencies differ from
        those of its last run. */
    method Commit(resolvedTheme: Option<string>) returns (ran: bool)
      modifies this
      ensures ran <==> old(lastDeps) != Some(Deps(resolvedTheme, old(mounted)))
      ensures ran ==> lastDeps == Some(Deps(resolvedTheme, old(mounted))) && mounted
      ensures ran ==> isDark == if old(mounted) && Truthy(resolvedTheme) then resolvedTheme.value == "dark"
                                else defaultTheme == "dark"
      ensures !ran ==> mounted == old(mounted) && isDark == old(isDark) && lastDeps == old(lastDeps)
    {
      var deps := Deps(resolvedTheme, mounted);
      ran := lastDeps != Some(deps);
      if ran {
        Effect(resolvedTheme);
        lastDeps := Some(deps);
      }
    }
  }

  /** Mounting with a fixed resolved theme: the first run ignores the resolved theme, the
      change of `mounted` makes React run the effect a second time, which settles the
      value, and a third render runs nothing. */
  method MountSequence(resolvedTheme: Option<string>, defaultTheme: string)
    returns (firstIsDark: bool, secondRan: bool, settledIsDark: bool, thirdRan: bool)
    requires defaultTheme == "dark" || defaultTheme == "light"
    ensures firstIsDark == (defaultTheme == "dark")
    ensures secondRan && settledIsDark == SettledIsDark(resolvedTheme, defaultTheme)
    ensures !thirdRan
  {
    var hook := new ThemeDetection(defaultTheme);
    var ran := hook.Commit(resolvedTheme);
    firstIsDark := hook.isDark;
    secondRan := hook.Commit(resolvedTheme);
    settledIsDark := hook.isDark;
    thirdRan := hook.Commit(resolvedTheme);
  }
}
