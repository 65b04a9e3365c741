/** The home route of the Rust build: the scroll-position section tracker, the theme
    initialisation and toggle, the document title, and the interception of clicks on
    in-page anchor links. */
module HomeRoute {
  import opened Wrappers
  import opened Dom
  import ThemeStore
  import Page

  const SECTIONS: seq<string> := ["intro", "work", "thoughts", "footer"]
  /** The section reported when none qualifies. */
  const DEFAULT_SECTION: string := "intro"

  /** The viewport midpoint in page coordinates: `scroll_y` (0 when unreadable) plus half
      of `inner_height`, which is 100 when unreadable (outer None) and 0 when it is not a
      number (inner None). */
  function ScrollPosition(scrollY: Option<real>, innerHeight: Option<Option<real>>): (r: real)
    ensures innerHeight.None? ==> r == scrollY.GetOr(0.0) + 50.0
    ensures innerHeight == Some(None) ==> r == scrollY.GetOr(0.0)
    ensures innerHeight.Some? && innerHeight.value.Some? ==> r == scrollY.GetOr(0.0) + innerHeight.value.value / 2.0
  {
    scrollY.GetOr(0.0) + (if innerHeight.None? then 100.0 else innerHeight.value.GetOr(0.0)) / 2.0
  }

  /** Section `k` is in the document and its top is at or above `pos`. */
  predicate Qualifies(doc: map<string, Element>, pos: real, k: int)
  {
    0 <= k < |SECTIONS| && SECTIONS[k] in doc && doc[SECTIONS[k]].offsetTop as real <= pos
  }

  /** The greatest index below `n` that qualifies, or -1. */
  function LastQualifying(doc: map<string, Element>, pos: real, n: nat): (r: int)
    requires n <= |SECTIONS|
    ensures -1 <= r < n
  {
    if n == 0 then -1
    else if Qualifies(doc, pos, n - 1) then n - 1
    else LastQualifying(doc, pos, n - 1)
  }

  /** The section the tracker selects: the last one in document order that qualifies, or
      intro when none does. */
  function TrackedSection(doc: map<string, Element>, pos: real): (r: string)
    ensures r in SECTIONS
  {
    var k := LastQualifying(doc, pos, |SECTIONS|);
    if k >= 0 then SECTIONS[k] else DEFAULT_SECTION
  }

  /** `LastQualifying` finds a qualifying index with nothing qualifying after it below `n`,
      and -1 only when nothing below `n` qualifies. */
  lemma {:induction false} LastQualifyingIsGreatest(doc: map<string, Element>, pos: real, n: nat)
    requires n <= |SECTIONS|
    ensures var r := LastQualifying(doc, pos, n);
            && (r >= 0 ==> Qualifies(doc, pos, r))
            && (forall j :: r < j < n ==> !Qualifies(doc, pos, j))
  {
    if n > 0 && !Qualifies(doc, pos, n - 1) {
      LastQualifyingIsGreatest(doc, pos, n - 1);
    }
  }

  /** The tracker's result is always one of the four sections; it is intro when nothing
      qualifies, and otherwise a qualifying section below which in document order no other
      qualifies. */
  lemma TrackedSectionCharacterised(doc: map<string, Element>, pos: real)
    ensures TrackedSection(doc, pos) in SECTIONS
    ensures (forall k :: 0 <= k < |SECTIONS| ==> !Qualifies(doc, pos, k)) ==> TrackedSection(doc, pos) == DEFAULT_SECTION
    ensures forall k :: 0 <= k < |SECTIONS| && TrackedSection(doc, pos) == SECTIONS[k] && Qualifies(doc, pos, k) ==>
              forall j :: k < j < |SECTIONS| ==> !Qualifies(doc, pos, j)
    ensures (exists k :: 0 <= k < |SECTIONS| && Qualifies(doc, pos, k)) ==>
              exists k :: 0 <= k < |SECTIONS| && SECTIONS[k] == TrackedSection(doc, pos) && Qualifies(doc, pos, k)
    ensures TrackedSection(doc, pos) != DEFAULT_SECTION ==>
              exists k :: 0 < k < |SECTIONS| && SECTIONS[k] == TrackedSection(doc, pos) && Qualifies(doc, pos, k)
  {
    LastQualifyingIsGreatest(doc, pos, |SECTIONS|);
  }

  /** When the section tops increase in document order, the tracked section is the one with
      the greatest top at or above the midpoint. */
  lemma TrackedSectionHasGreatestTop(doc: map<string, Element>, pos: real, k: nat)
    requires forall i, j :: 0 <= i < j < |SECTIONS| && SECTIONS[i] in doc && SECTIONS[j] in doc ==>
               doc[SECTIONS[i]].offsetTop < doc[SECTIONS[j]].offsetTop
    requires k == LastQualifying(doc, pos, |SECTIONS|)
    requires k >= 0
    ensures Qualifies(doc, pos, k)
    ensures forall j :: Qualifies(doc, pos, j) ==> doc[SECTIONS[j]].offsetTop <= doc[SECTIONS[k]].offsetTop
  {
    LastQualifyingIsGreatest(doc, pos, |SECTIONS|);
  }

  /** The reverse scan of the scroll closure: from footer back to intro, the first section
      present whose top is at or above `pos`, with intro as the default. */
  method ActiveSectionAt(doc: map<string, Element>, pos: real) returns (id: string)
    ensures id == TrackedSection(doc, pos)
  {
    id := DEFAULT_SECTION;
    for i := |SECTIONS| downto 0
      invariant LastQualifying(doc, pos, |SECTIONS|) == LastQualifying(doc, pos, i)
      invariant id == DEFAULT_SECTION
    {
      var sectionId := SECTIONS[i];
      var element := GetElementById(doc, sectionId);
      if element.Some? {
        if element.value.offsetTop as real <= pos {
          id := sectionId;
          return;
        }
      }
    }
  }

  /** ASCII lower-casing of one character. */
  function ToLowerChar(c: char): char
  {
    if 'A' <= c <= 'Z' then (c as int + 32) as char else c
  }

  /** ASCII lower-casing of a tag name. */
  function ToLower(s: string): (r: string)
    ensures |r| == |s|
    ensures forall i :: 0 <= i < |s| ==> r[i] == ToLowerChar(s[i])
  {
    seq(|s|, i requires 0 <= i < |s| => ToLowerChar(s[i]))
  }

  /** Only "a" and "A" lower-case to "a". */
  lemma LowerIsAnchorTag(t: string)
    ensures ToLower(t) == "a" <==> t == "a" || t == "A"
  {
    if ToLower(t) == "a" {
      assert |t| == 1 && ToLowerChar(t[0]) == 'a';
      assert t == [t[0]];
    }
  }

  /** The walk stops at an element whose lower-cased tag is "a" and that is an HTML element. */
  function IsAnchor(e: Element): (r: bool)
    ensures r <==> (e.tagName == "a" || e.tagName == "A") && e.isHtml
  {
    LowerIsAnchorTag(e.tagName);
    ToLower(e.tagName) == "a" && e.isHtml
  }

  /** Position `i` of the chain (0 is the clicked element, then its ancestors) is the
      nearest anchor. */
  predicate IsFirstAnchor(chain: seq<Element>, i: int)
  {
    0 <= i < |chain| && IsAnchor(chain[i]) && forall j :: 0 <= j < i ==> !IsAnchor(chain[j])
  }

  /** `get_closest_anchor_link`: the position in the ancestor chain of the nearest
      self-or-ancestor anchor, or None when there is none. */
  method ClosestAnchorLink(chain: seq<Element>) returns (r: Option<nat>)
    ensures r.Some? ==> IsFirstAnchor(chain, r.value)
    ensures r.None? ==> forall j :: 0 <= j < |chain| ==> !IsAnchor(chain[j])
  {
    var i := 0;
    while i < |chain|
      invariant 0 <= i <= |chain|
      invariant forall j :: 0 <= j < i ==> !IsAnchor(chain[j])
    {
      var el := chain[i];
      var tagName := ToLower(el.tagName);
      if tagName == "a" {
        if el.isHtml {
          return Some(i);
        }
      }
      i := i + 1;
    }
    return None;
  }

  /** `trim_start_matches(c)`: `s` without any of its leading `c` characters. */
  function TrimStart(s: string, c: char): (r: string)
    ensures |r| <= |s|
    ensures r == [] || r[0] != c
  {
    if |s| > 0 && s[0] == c then TrimStart(s[1..], c) else s
  }

  /** The trimmed string is a suffix of `s` preceded only by `c`, and does not start with `c`. */
  lemma {:induction false} TrimStartIsSuffix(s: string, c: char)
    ensures var t := TrimStart(s, c);
            && |t| <= |s| && t == s[|s| - |t|..]
            && (forall i :: 0 <= i < |s| - |t| ==> s[i] == c)
            && (t == [] || t[0] != c)
  {
    if |s| > 0 && s[0] == c {
      TrimStartIsSuffix(s[1..], c);
      var t := TrimStart(s, c);
      assert t == TrimStart(s[1..], c);
      forall i | 0 <= i < |s| - |t| ensures s[i] == c {
        if i > 0 { assert s[i] == s[1..][i - 1]; }
      }
    }
  }

  /** Prefixing any number of `c` and trimming gives back a string that does not start with `c`. */
  lemma {:induction false} TrimStartOfPrefixed(n: nat, id: string, c: char)
    requires id == [] || id[0] != c
    ensures TrimStart(seq(n, _ => c) + id, c) == id
  {
    if n > 0 {
      var s := seq(n, _ => c) + id;
      assert s[1..] == seq(n - 1, _ => c) + id;
      TrimStartOfPrefixed(n - 1, id, c);
    } else {
      assert seq(n, _ => c) + id == id;
    }
  }

  /** The anchor-click rule: an `href` that starts with "#" and is not exactly "#" is
      intercepted, and its target id is the `href` with every leading "#" removed. */
  function InterceptTarget(href: Option<string>): (r: Option<string>)
    ensures r.Some? ==> href.Some? && |href.value| > 0 && href.value[0] == '#' && href.value != "#"
    ensures r.Some? ==> href.Some? && |r.value| <= |href.value| && r.value == href.value[|href.value| - |r.value|..]
    ensures r.Some? ==> r.value == [] || r.value[0] != '#'
  {
    if href.Some? && |href.value| > 0 && href.value[0] == '#' && href.value != "#" then
      TrimStartIsSuffix(href.value, '#');
      Some(TrimStart(href.value, '#'))
    else
      None
  }

  /** Exactly the in-page links other than the bare "#" are intercepted; the target never
      starts with "#", and a link "#id" to an ordinary id routes to that id. */
  lemma InterceptTargetRule(href: Option<string>, id: string)
    ensures InterceptTarget(href).Some? <==>
              href.Some? && |href.value| > 0 && href.value[0] == '#' && href.value != "#"
    ensures InterceptTarget(href).Some? ==>
              var t := InterceptTarget(href).value; t == [] || t[0] != '#'
    ensures id != "" && id[0] != '#' ==> InterceptTarget(Some("#" + id)) == Some(id)
  {
    if href.Some? {
      TrimStartIsSuffix(href.value, '#');
    }
    if id != "" && id[0] != '#' {
      TrimStartOfPrefixed(1, id, '#');
      assert seq(1, _ => '#') + id == "#" + id;
    }
  }

  /** `get_section_name`: the display name of a section; any other input is returned as is. */
  function SectionName(section: string): (r: string)
    ensures section in Page.SECTION_NAMES ==> r == Page.SECTION_NAMES[section]
    ensures section !in Page.SECTION_NAMES ==> r == section
  {
    match section
    case "intro" => "Home"
    case "work" => "Work"
    case "thoughts" => "Thoughts"
    case "footer" => "Contact"
    case _ => section
  }

  /** The name the title effect uses: as `get_section_name`, but "Home" for any other input. */
  function TitleSectionName(section: string): (r: string)
    ensures r == if section in Page.SECTION_NAMES then Page.SECTION_NAMES[section] else "Home"
  {
    match section
    case "intro" => "Home"
    case "work" => "Work"
    case "thoughts" => "Thoughts"
    case "footer" => "Contact"
    case _ => "Home"
  }

  /** The two lookups agree on the sections and differ on every other input except "Home". */
  lemma SectionNamesAgreeOnSections(section: string)
    ensures section in SECTIONS ==> SectionName(section) == TitleSectionName(section)
    ensures section !in SECTIONS ==> SectionName(section) == section && TitleSectionName(section) == "Home"
  {
  }

  /** The Rust title equals the TypeScript page's title for every active section. */
  lemma TitleMatchesTypeScriptPage(section: string)
    ensures Page.TITLE_PREFIX + TitleSectionName(section) == Page.Title(section)
  {
  }

  /** The theme name for a dark flag. */
  function ThemeName(isDark: bool): (r: string)
    ensures r == "dark" <==> isDark
    ensures r == "light" <==> !isDark
  {
    if isDark then "dark" else "light"
  }

  /** The initial dark flag for a stored theme: dark unless "light" is stored. */
  function InitialIsDark(stored: Option<string>): (r: bool)
    ensures stored.None? ==> r
    ensures stored == Some("dark") ==> r
    ensures stored == Some("light") ==> !r
  {
    if stored.Some? then stored.value == "dark" else true
  }

  /** Initialisation reads "dark" as dark, "light" as light, and nothing (or anything invalid)
      as dark. */
  lemma InitialThemeResolution(storage: Option<map<string, string>>)
    ensures !InitialIsDark(ThemeStore.GetStoredTheme(storage)) <==>
              storage.Some? && THEME_KEY in storage.value && storage.value[THEME_KEY] == "light"
  {
  }

  /** As written, the toggle persists the theme shown before the flip, so reading storage
      back after one toggle restores the old theme. */
  lemma AsWrittenTogglePersistsOldTheme(storage: Option<map<string, string>>, isDark: bool)
    requires storage.Some?
    ensures InitialIsDark(ThemeStore.GetStoredTheme(ThemeStore.Persisted(storage, ThemeName(isDark)))) == isDark
  {
  }

  /** The corrected toggle persists the theme after the flip, which initialisation reads back. */
  lemma CorrectedTogglePersistsNewTheme(storage: Option<map<string, string>>, isDark: bool)
    requires storage.Some?
    ensures InitialIsDark(ThemeStore.GetStoredTheme(ThemeStore.Persisted(storage, ThemeName(!isDark)))) == !isDark
  {
  }

  /** The `HomePage` component's signals. */
  class HomePage {
    const w: Window?
    var activeSection: string
    var isDark: bool
    var mounted: bool

    constructor (w: Window?)
      ensures this.w == w && activeSection == DEFAULT_SECTION && isDark && !mounted
    {
      this.w := w;
      activeSection := DEFAULT_SECTION;
      isDark := true;
      mounted := false;
    }

    /** The theme effect: the first run takes the dark flag from storage and sets `mounted`;
        later runs change nothing. */
    method InitTheme()
      modifies this`isDark, this`mounted
      ensures mounted
      ensures !old(mounted) ==> isDark == InitialIsDark(ThemeStore.GetStoredTheme(ThemeStore.StorageOf(w)))
      ensures old(mounted) ==> isDark == old(isDark)
    {
      if !mounted {
        var storedTheme := ThemeStore.GetStoredTheme(ThemeStore.StorageOf(w));
        if storedTheme.Some? {
          isDark := storedTheme.value == "dark";
        } else {
          isDark := true;
        }
        mounted := true;
      }
    }

    /** `toggle_theme` as written: `set_theme` receives the theme from before the flip. */
    method ToggleTheme()
      modifies this`isDark, w
      ensures isDark == !old(isDark)
      ensures w != null ==> w.storage == ThemeStore.Persisted(old(w.storage), ThemeName(old(isDark)))
      ensures w != null ==> w.rootClasses == if w.hasDocument then ApplyDark(old(w.rootClasses), old(isDark))
                                            else old(w.rootClasses)
    {
      var newTheme := if isDark then "dark" else "light";
      ThemeStore.SetTheme(w, newTheme);
      isDark := !isDark;
    }

    /** The toggle as evidently intended: flip, then persist and apply the new theme. */
    method ToggleThemeCorrected()
      modifies this`isDark, w
      ensures isDark == !old(isDark)
      ensures w != null ==> w.storage == ThemeStore.Persisted(old(w.storage), ThemeName(isDark))
      ensures w != null ==> w.rootClasses == if w.hasDocument then ApplyDark(old(w.rootClasses), isDark)
                                            else old(w.rootClasses)
    {
      var newTheme := if isDark then "light" else "dark";
      ThemeStore.SetTheme(w, newTheme);
      isDark := !isDark;
    }

    /** The scroll listener: with a window, the active section becomes the tracked one. */
    method OnScroll(scrollY: Option<real>, innerHeight: Option<Option<real>>, doc: map<string, Element>)
      modifies this`activeSection
      ensures w != null ==> activeSection == TrackedSection(doc, ScrollPosition(scrollY, innerHeight))
      ensures w == null ==> activeSection == old(activeSection)
    {
      if w != null {
        var scrollPosition := ScrollPosition(scrollY, innerHeight);
        activeSection := ActiveSectionAt(doc, scrollPosition);
      }
    }

    /** The global click listener. `chain` is the clicked element followed by its ancestors.
        It prevents the default action and navigates exactly when the nearest anchor has an
        intercepted `href`; `scrolled` tells whether the target element exists. */
    method OnClick(chain: seq<Element>, doc: map<string, Element>)
      returns (prevented: bool, target: Option<string>, scrolled: bool)
      ensures prevented <==> target.Some?
      ensures w == null ==> !prevented
      ensures w != null ==> forall i :: IsFirstAnchor(chain, i) ==> target == InterceptTarget(chain[i].href)
      ensures (forall j :: 0 <= j < |chain| ==> !IsAnchor(chain[j])) ==> !prevented
      ensures scrolled <==> target.Some? && target.value in doc
    {
      prevented, target, scrolled := false, None, false;
      if w != null {
        var link := ClosestAnchorLink(chain);
        if link.Some? {
          var href := chain[link.value].href;
          if href.Some? {
            var hrefVal := href.value;
            if |hrefVal| > 0 && hrefVal[0] == '#' && hrefVal != "#" {
              prevented := true;
              var targetId := TrimStart(hrefVal, '#');
              target := Some(targetId);
              scrolled := GetElementById(doc, targetId).Some?;
            }
          }
        }
      }
    }

    /** The document title for the active section. */
    function DocumentTitle(): (t: string)
      reads this
      ensures t == Page.Title(activeSection)
    {
      TitleMatchesTypeScriptPage(activeSection);
      "edgarcnp.dev | " + TitleSectionName(activeSection)
    }
  }

  /** A fresh page with working storage: the signal says dark, nothing is stored and the
      root has no `dark` class, since `InitTheme` never applies the theme. One toggle as
      written sets the signal to false but stores "dark" and adds the root `dark` class, so
      the reload comes back dark and the signal disagrees with the persisted theme. */
  method ToggleThenReloadAsWritten()
    returns (darkBefore: bool, rootDarkBefore: bool, afterToggle: bool, rootDark: bool,
             stored: Option<map<string, string>>, afterReload: bool)
    ensures darkBefore && !rootDarkBefore
    ensures !afterToggle && rootDark && stored == Some(map[THEME_KEY := "dark"]) && afterReload
  {
    var w := new Window(Some(map[]), true, {}, None);
    var page := new HomePage(w);
    page.InitTheme();
    darkBefore := page.isDark;
    rootDarkBefore := DARK_CLASS in w.rootClasses;
    page.ToggleTheme();
    afterToggle := page.isDark;
    rootDark := DARK_CLASS in w.rootClasses;
    stored := w.storage;
    var reloaded := new HomePage(w);
    reloaded.InitTheme();
    afterReload := reloaded.isDark;
  }

  /** The same sequence with the corrected toggle: "light" is stored, the root class, which
      had no `dark` before, still has none, and the reload keeps the toggled theme. */
  method ToggleThenReloadCorrected()
    returns (darkBefore: bool, rootDarkBefore: bool, afterToggle: bool, rootDark: bool,
             stored: Option<map<string, string>>, afterReload: bool)
    ensures darkBefore && !rootDarkBefore
    ensures !afterToggle && !rootDark && stored == Some(map[THEME_KEY := "light"]) && !afterReload
  {
    var w := new Window(Some(map[]), true, {}, None);
    var page := new HomePage(w);
    page.InitTheme();
    darkBefore := page.isDark;
    rootDarkBefore := DARK_CLASS in w.rootClasses;
    page.ToggleThemeCorrected();
    afterToggle := page.isDark;
    rootDark := DARK_CLASS in w.rootClasses;
    stored := w.storage;
    var reloaded := new HomePage(w);
    reloaded.InitTheme();
    afterReload := reloaded.isDark;
  }
}
