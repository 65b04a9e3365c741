/** The mount-time theme detector of the TypeScript build. It renders nothing. */
module ThemeDetector {
  import opened Wrappers
  import opened Dom
  import ThemeUtilsBackup

  /** The theme the detector applies: `getStoredTheme() || 'dark'`. */
  function DetectedTheme(stored: Option<string>, prefersDark: Option<bool>): (r: string)
    ensures r == "dark" || r == "light"
  {
    Or(ThemeUtilsBackup.GetStoredTheme(true, stored, prefersDark), "dark")
  }

  /** The detector applies "light" exactly when storage holds "light" and "dark" otherwise. */
  lemma DetectedThemeIsDarkUnlessStoredLight(stored: Option<string>, prefersDark: Option<bool>)
    ensures DetectedTheme(stored, prefersDark) in {"dark", "light"}
    ensures DetectedTheme(stored, prefersDark) == "light" <==> stored == Some("light")
  {
  }

  /** `ThemeDetector`; `effectRan` records that its mount effect (empty dependency list) has run. */
  class ThemeDetector {
    var effectRan: bool

    constructor ()
      ensures !effectRan
    {
      effectRan := false;
    }

    /** A commit: the first one adds the root `dark` class when the detected theme is
        "dark" and removes it otherwise; later commits change nothing. */
    method Commit(w: Window)
      modifies this, w`rootClasses
      ensures effectRan
      ensures old(effectRan) ==> w.rootClasses == old(w.rootClasses)
      ensures !old(effectRan) ==>
                w.rootClasses == ApplyDark(old(w.rootClasses), DetectedTheme(w.StoredItem(), w.prefersDark) == "dark")
    {
      if !effectRan {
        var storedTheme := Or(ThemeUtilsBackup.GetStoredTheme(true, w.StoredItem(), w.prefersDark), "dark");
        if storedTheme == "dark" {
          w.rootClasses := w.rootClasses + {DARK_CLASS};
        } else {
          w.rootClasses := w.rootClasses - {DARK_CLASS};
        }
        effectRan := true;
      }
    }
  }
}
