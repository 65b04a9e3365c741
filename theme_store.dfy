/** Theme persistence of the Rust build: reading and writing the stored theme
    and applying the root `dark` class. */
module ThemeStore {
  import opened Wrappers
  import opened Dom

  /** What `get_stored_theme` sees: the window's storage, or nothing when there is no window. */
  function StorageOf(w: Window?): (r: Option<map<string, string>>)
    reads w
    ensures w == null ==> r == None
    ensures w != null ==> r == w.storage
  {
    if w == null then None else w.storage
  }

  /** `get_stored_theme`: the stored theme, accepted only when it is exactly "dark" or "light". */
  function GetStoredTheme(storage: Option<map<string, string>>): (r: Option<string>)
    ensures r == None || r == Some("dark") || r == Some("light")
    ensures r.Some? ==> storage.Some? && THEME_KEY in storage.value && r.value == storage.value[THEME_KEY]
  {
    if storage.Some? && THEME_KEY in storage.value then
      var stored := storage.value[THEME_KEY];
      if stored == "dark" || stored == "light" then Some(stored) else None
    else
      None
  }

  /** The storage after `set_theme(theme)` writes the key; unavailable storage stays unavailable. */
  function Persisted(storage: Option<map<string, string>>, theme: string): (r: Option<map<string, string>>)
    ensures r.Some? <==> storage.Some?
    ensures r.Some? ==> r.value == storage.value[THEME_KEY := theme]
  {
    if storage.Some? then Some(storage.value[THEME_KEY := theme]) else storage
  }

  /** `set_theme(theme)`: writes `theme` unvalidated to storage when storage exists, and,
      independently of that, sets the root `dark` class exactly when `theme` is "dark"
      when a document exists. Without a window nothing changes. */
  method SetTheme(w: Window?, theme: string)
    modifies w
    ensures w != null ==> w.storage == Persisted(old(w.storage), theme)
    ensures w != null ==> w.rootClasses == if w.hasDocument then ApplyDark(old(w.rootClasses), theme == "dark")
                                          else old(w.rootClasses)
  {
    if w != null {
      if w.storage.Some? {
        w.storage := Some(w.storage.value[THEME_KEY := theme]);
      }
      if w.hasDocument {
        if theme == "dark" {
          w.rootClasses := w.rootClasses + {DARK_CLASS};
        } else {
          w.rootClasses := w.rootClasses - {DARK_CLASS};
        }
      }
    }
  }

  /** `get_system_theme_preference`: "dark" exactly when the media query reports a match. */
  function GetSystemThemePreference(w: Window?): (r: string)
    reads w
    ensures r == "dark" || r == "light"
    ensures r == "dark" <==> w != null && w.prefersDark == Some(true)
  {
    if w != null && w.prefersDark == Some(true) then "dark" else "light"
  }

  /** A stored value is returned only when it is the valid theme found under the key;
      a missing key, unavailable storage or any other string gives None. */
  lemma StoredThemeIsValidated(storage: Option<map<string, string>>)
    ensures GetStoredTheme(storage).Some? <==>
            storage.Some? && THEME_KEY in storage.value && storage.value[THEME_KEY] in {"dark", "light"}
    ensures GetStoredTheme(storage).Some? ==> GetStoredTheme(storage).value == storage.value[THEME_KEY]
  {
  }

  /** Round trip: persisting a valid theme into working storage and reading it back gives that
      theme; persisting any other string makes the read give None. */
  lemma PersistThenReadBack(storage: Option<map<string, string>>, theme: string)
    requires storage.Some?
    ensures theme in {"dark", "light"} ==> GetStoredTheme(Persisted(storage, theme)) == Some(theme)
    ensures theme !in {"dark", "light"} ==> GetStoredTheme(Persisted(storage, theme)) == None
  {
  }

  /** Last write wins: a second `set_theme` overrides the first in storage and on the
      root class, whatever the first wrote. */
  lemma LastWriteWins(storage: Option<map<string, string>>, classes: set<string>, first: string, second: string)
    ensures Persisted(Persisted(storage, first), second) == Persisted(storage, second)
    ensures ApplyDark(ApplyDark(classes, first == "dark"), second == "dark") == ApplyDark(classes, second == "dark")
  {
    if storage.Some? {
      assert storage.value[THEME_KEY := first][THEME_KEY := second] == storage.value[THEME_KEY := second];
    }
  }
}
