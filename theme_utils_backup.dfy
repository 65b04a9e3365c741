/** The earlier theme utilities of the TypeScript build: pre-hydration theme lookup
    and the theme-detection hook that uses it. */
module ThemeUtilsBackup {
  import opened Wrappers
  import opened Dom

  /** `getStoredTheme`: with a window, a non-empty stored value is returned when it is
      "dark" or "light" and rejected otherwise; with no (or an empty) stored value a
      matching dark colour-scheme query gives "dark"; everything else gives null (None). */
  function GetStoredTheme(hasWindow: bool, stored: Option<string>, prefersDark: Option<bool>): (r: Option<string>)
    ensures r == None || r == Some("dark") || r == Some("light")
    ensures !hasWindow ==> r == None
  {
    if !hasWindow then None
    else if Truthy(stored) then
      if stored.value == "dark" || stored.value == "light" then Some(stored.value) else None
    else if prefersDark == Some(true) then Some("dark")
    else None
  }

  /** `getStoredTheme()` evaluated against a window (null when there is none). */
  function GetStoredThemeIn(w: Window?): (r: Option<string>)
    reads w
    ensures w == null ==> r == None
  {
    if w == null then None else GetStoredTheme(true, w.StoredItem(), w.prefersDark)
  }

  /** The result is always null, "dark" or "light". */
  lemma StoredThemeRange(hasWindow: bool, stored: Option<string>, prefersDark: Option<bool>)
    ensures GetStoredTheme(hasWindow, stored, prefersDark) in {None, Some("dark"), Some("light")}
  {
  }

  /** A valid stored value is returned whatever the system preference; an invalid non-empty
      one gives null without consulting the system preference. */
  lemma StoredValueDecides(stored: string, prefersDark: Option<bool>)
    requires stored != ""
    ensures stored in {"dark", "light"} ==> GetStoredTheme(true, Some(stored), prefersDark) == Some(stored)
    ensures stored !in {"dark", "light"} ==> GetStoredTheme(true, Some(stored), prefersDark) == None
  {
  }

  /** "light" comes only from storage, never from the system preference; without a stored
      value the result is "dark" exactly when the dark query matches. */
  lemma LightOnlyFromStorage(hasWindow: bool, stored: Option<string>, prefersDark: Option<bool>)
    ensures GetStoredTheme(hasWindow, stored, prefersDark) == Some("light") <==> hasWindow && stored == Some("light")
    ensures hasWindow && !Truthy(stored) ==>
              (GetStoredTheme(hasWindow, stored, prefersDark) == Some("dark") <==> prefersDark == Some(true))
    ensures !hasWindow ==> GetStoredTheme(hasWindow, stored, prefersDark) == None
  {
  }

  /** The theme the hook's effect checks: `resolvedTheme || getStoredTheme() || defaultTheme`. */
  function ThemeToCheck(resolvedTheme: Option<string>, storedTheme: Option<string>, defaultTheme: string): (r: string)
    ensures r == defaultTheme || (Truthy(resolvedTheme) && r == resolvedTheme.value)
            || (Truthy(storedTheme) && r == storedTheme.value)
  {
    Or(resolvedTheme, Or(storedTheme, defaultTheme))
  }

  /** The first truthy candidate wins: the resolved theme, then the stored theme, then the default. */
  lemma ThemeToCheckPriority(resolvedTheme: Option<string>, storedTheme: Option<string>, defaultTheme: string)
    ensures Truthy(resolvedTheme) ==> ThemeToCheck(resolvedTheme, storedTheme, defaultTheme) == resolvedTheme.value
    ensures !Truthy(resolvedTheme) && Truthy(storedTheme) ==>
              ThemeToCheck(resolvedTheme, storedTheme, defaultTheme) == storedTheme.value
    ensures !Truthy(resolvedTheme) && !Truthy(storedTheme) ==>
              ThemeToCheck(resolvedTheme, storedTheme, defaultTheme) == defaultTheme
  {
  }

  /** With the default "dark" and no resolved theme, the hook ends dark unless storage holds
      "light" (for a window present). */
  lemma DarkDefaultUnlessStoredLight(stored: Option<string>, prefersDark: Option<bool>)
    ensures ThemeToCheck(None, GetStoredTheme(true, stored, prefersDark), DEFAULT_THEME) == "dark"
            <==> stored != Some("light")
  {
  }

  /** `useThemeDetection(defaultTheme)` of the earlier build. */
  class ThemeDetection {
    const defaultTheme: string
    var mounted: bool
    var isDark: bool

    /** Initial state: not mounted, dark exactly when the default theme is "dark". */
    constructor (defaultTheme: string)
      requires defaultTheme == "dark" || defaultTheme == "light"
      ensures this.defaultTheme == defaultTheme
      ensures !mounted && isDark == (defaultTheme == "dark")
    {
      this.defaultTheme := defaultTheme;
      mounted := false;
      isDark := defaultTheme == "dark";
    }

    /** One run of the effect: mounted, and dark exactly when the checked theme is "dark". */
    method Effect(resolvedTheme: Option<string>, w: Window?)
      modifies this
      ensures mounted
      ensures isDark == (ThemeToCheck(resolvedTheme, GetStoredThemeIn(w), defaultTheme) == "dark")
    {
      mounted := true;
      var themeToCheck := Or(resolvedTheme, Or(GetStoredThemeIn(w), defaultTheme));
      isDark := themeToCheck == "dark";
    }
  }
}
