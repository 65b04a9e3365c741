# edgarcnp.dev — a verified model of the site's interaction logic

The portfolio site exists in two builds: a Next.js/React build in TypeScript and a
Leptos build in Rust. Almost all of its code is markup. What it decides is spread over
a handful of event handlers, and this project models those decisions:

- **Section paging** (`Page`, app/page.tsx). Wheel and PageUp/PageDown events move to
  the neighbouring section of the fixed list intro → work → thoughts → footer. The move
  is clamped at both ends, and a 900 ms cooldown after each jump suppresses further
  events. The module also covers `handleNavigation`, the section-ref map and the title.
- **Section tracking and anchor routing** (`HomeRoute`, src/routes/home.rs).
  - The scroll listener scans the sections in reverse and picks the last one whose top
    is at or above the viewport midpoint.
  - The click listener walks up from the clicked element to the nearest `<a>`. It
    intercepts `href`s of the form `#…` other than the bare `#`, removing every
    leading `#`.
  - The module also covers the theme initialisation and toggle of the Rust page, and
    its title.
- **Theme resolution and persistence.**
  - `ThemeStore` (src/lib/mod.rs): validated reads, unvalidated writes, and the root
    `dark` class.
  - `ThemeUtilsBackup` (backup_original/lib/theme-utils.ts): `getStoredTheme` and its
    resolution order.
  - `ThemeUtils` (lib/theme-utils.ts): the current `useThemeDetection` hook, whose
    effect sees the previous render's `mounted`.
  - `ThemeDetector` (components/theme-detector.tsx): the mount-time class application.
  - `ThemeProvider` (components/theme-provider.tsx): the one-shot transition lock.
- **Navigation bars.**
  - `NavbarTsx` (components/navbar.tsx): the throttled `isScrolled` and the mobile menu
    with its closing animation.
  - `NavbarRs` (src/components/navbar.rs): the plain signal version.
  - Both: the highlighted section.
- **Splash loader** (`Loader`, components/loader.tsx). Random progress ticks, completion
  on `load`, on an already complete document or after a 3 s fallback, then hiding after
  300 ms and `onLoadComplete` 500 ms later.
- **Constant tables** (`Constants`, lib/constants.ts; `IntroSection`,
  src/components/intro_section.rs): the section list and names, and the
  availability → colour/text table.

How the browser is modelled:

- The browser is reduced to what these handlers read and write (`Dom`): a `Window`
  holds the optional local storage map, the root class set and the colour-scheme
  query result.
- Elements are values with an id, a tag name, an HTML flag, an optional `href` and an
  integer `offsetTop`.
- Time is an integer millisecond argument. Pending `setTimeout` callbacks are lists of
  deadlines, fired by an explicit `Advance(now)` (`Timers`).
- `Math.random()` is a parameter in [0, 1).
- Components whose state React or Leptos updates are classes. Each method models one
  handler or one effect run.

Points where the code as written does not work, and the model takes its evident meaning:

- `get_closest_anchor_link` (src/routes/home.rs:198-210) moves `el` into `dyn_into` and
  then reads `el.parent_element()`. The model gives it the evident meaning: a non-HTML
  `a` (an SVG link) is skipped and the walk goes on to its parent.
- components/theme-detector.tsx:4 imports `getStoredTheme` from `lib/theme-utils`, but
  only backup_original/lib/theme-utils.ts:15 defines it. The detector is therefore
  modelled against that definition.
- The Rust code writes `if let Ok(window) = web_sys::window()`, but `web_sys::window()`
  returns an `Option` (src/lib/mod.rs:5,20,39; src/routes/home.rs:40,56,107,118,137). The
  model reads each such test as "if there is a window".
- src/routes/home.rs:58-62 writes `inner_height().unwrap_or(100.0).as_f64()`: the
  fallback is a float where a `JsValue` is expected, and `as_f64` is then called on it. The model reads it as "the viewport height, 100 when it cannot be
  read and 0 when it is not a number" (`HomeRoute.ScrollPosition`).

Points where the code works but differs from what a reader might expect:

- The loader's raw progress does not only grow. A tick can take it past 100 (99 + 0.9·15
  = 112.5), and the next tick sets it back to exactly 100. What never decreases and
  never exceeds 100 is the displayed width `min(progress, 100)` and the percentage
  derived from it (`Loader.RawProgressOvershoots`, `Loader.TickProgress`).
- app/page.tsx uses its own cooldown and scroll duration of 900 ms. The shared table in
  lib/constants.ts says 300 and 600 (`Page.PageTablesVersusConstants`).

## Model

| member | source | states |
|---|---|---|
| Constants.SectionsAreFixed | lib/constants.ts:3 | the section list has four distinct entries, starting with intro and ending with footer |
| Constants.SectionNamesCoverSections | lib/constants.ts:4-9 | exactly the four sections have display names: Home, Work, Thoughts, Contact |
| Constants.StatusConfigKeyedByValues | lib/constants.ts:15-37 | the status table is keyed by the lower-case runtime values, and none of the upper-case key names that form the `AvailabilityStatus` type is a key of it |
| IntroSection.AvailabilityStatus.Color | src/components/intro_section.rs:11-17 | the dot colour of a status; `AgreesWithStatusConfig` and `IndicatorsDistinguishStatuses` characterise it |
| IntroSection.AvailabilityStatus.Text | src/components/intro_section.rs:19-25 | the status text; `AgreesWithStatusConfig` and `IndicatorsDistinguishStatuses` characterise it |
| IntroSection.AgreesWithStatusConfig | src/components/intro_section.rs:10-26 | for every status, the Rust colour and text equal the TypeScript table's entry for the same status |
| IntroSection.IndicatorsDistinguishStatuses | src/components/intro_section.rs:11-25 | distinct statuses have distinct colours and distinct texts (both directions) |
| IntroSection.CurrentIndicator | src/components/intro_section.rs:29 | the shown status is yellow with "Busy with projects" |
| ThemeStore.StorageOf | src/lib/mod.rs:4-7 | without a window no storage is visible, and with one its storage is |
| ThemeStore.Persisted | src/lib/mod.rs:20-25 | writing keeps unavailable storage unavailable, and otherwise stores the theme under the key with no validation |
| ThemeStore.SetTheme | src/lib/mod.rs:19-36 | storage holds the unvalidated theme when available; independently, with a document, the root has `dark` iff the theme is "dark", other classes untouched; without a window nothing changes |
| ThemeStore.GetStoredTheme | src/lib/mod.rs:4-17 | the result is None, "dark" or "light", and a returned theme is the value stored under the key; `StoredThemeIsValidated` gives the converse |
| ThemeStore.GetSystemThemePreference | src/lib/mod.rs:38-47 | the result is "dark" or "light", and it is "dark" iff a window exists and the dark media query matches |
| ThemeStore.StoredThemeIsValidated | src/lib/mod.rs:4-17 | a theme is returned iff storage exists, the key is present and the value is "dark" or "light"; the returned theme is the stored value |
| ThemeStore.PersistThenReadBack | src/lib/mod.rs:8-23 | with working storage, writing "dark"/"light" and reading back returns it, and writing any other string makes the read give None |
| ThemeStore.LastWriteWins | src/lib/mod.rs:19-36 | two writes leave storage and the root class exactly as the second alone would |
| ThemeUtilsBackup.GetStoredTheme | backup_original/lib/theme-utils.ts:15-28 | the result is null, "dark" or "light", and null without a window; `StoredValueDecides` and `LightOnlyFromStorage` pin down each case |
| ThemeUtilsBackup.GetStoredThemeIn | backup_original/lib/theme-utils.ts:15-16 | without a window the result is null |
| ThemeUtilsBackup.StoredThemeRange | backup_original/lib/theme-utils.ts:15-28 | the result is always null, "dark" or "light" |
| ThemeUtilsBackup.StoredValueDecides | backup_original/lib/theme-utils.ts:17-21 | a valid non-empty stored value is returned whatever the system preference; an invalid one gives null without falling back to the preference |
| ThemeUtilsBackup.LightOnlyFromStorage | backup_original/lib/theme-utils.ts:16-27 | "light" comes iff storage holds "light"; with no or an empty stored value the result is "dark" iff the dark query matches; without a window it is null |
| ThemeUtilsBackup.ThemeToCheck | backup_original/lib/theme-utils.ts:45 | the checked theme is a truthy resolved theme, a truthy stored theme or the default; `ThemeToCheckPriority` gives the order |
| ThemeUtilsBackup.ThemeToCheckPriority | backup_original/lib/theme-utils.ts:45 | the first truthy value among the resolved theme, the stored theme and the default is checked |
| ThemeUtilsBackup.DarkDefaultUnlessStoredLight | backup_original/lib/theme-utils.ts:35-47 | with the default "dark" and nothing resolved, the hook ends dark iff storage does not hold "light" |
| ThemeUtilsBackup.ThemeDetection.constructor | backup_original/lib/theme-utils.ts:35-40 | not mounted, and dark iff the default is "dark" |
| ThemeUtilsBackup.ThemeDetection.Effect | backup_original/lib/theme-utils.ts:42-47 | after a run the hook is mounted, and dark iff the checked theme is "dark" |
| ThemeUtils.ThemeDetection.constructor | lib/theme-utils.ts:13-16 | `mounted` and `isDark` both start false |
| ThemeUtils.ThemeDetection.Effect | lib/theme-utils.ts:18-22 | a run sets `mounted` and uses the resolved theme only when the `mounted` it saw was already true and the theme is truthy, else the default |
| ThemeUtils.ThemeDetection.Commit | lib/theme-utils.ts:18-23 | the effect runs iff the dependency values (resolved theme, mounted) differ from those of its last run; otherwise nothing changes |
| ThemeUtils.SettledIsDark | lib/theme-utils.ts:21 | the value a mounted hook computes; `ThemeUtils.MountSequence` proves the hook reaches it on the second run |
| ThemeUtils.MountSequence | lib/theme-utils.ts:13-26 | on mount the first run yields the default, the `mounted` change forces a second run that settles on the resolved theme, and a third render runs nothing |
| ThemeDetector.DetectedTheme | components/theme-detector.tsx:13 | the applied theme is "dark" or "light"; `DetectedThemeIsDarkUnlessStoredLight` says which |
| ThemeDetector.DetectedThemeIsDarkUnlessStoredLight | components/theme-detector.tsx:13 | the applied theme is "dark" or "light", and "light" iff storage holds "light" |
| ThemeDetector.ThemeDetector.constructor | components/theme-detector.tsx:10-11 | the mount effect has not run yet |
| ThemeDetector.ThemeDetector.Commit | components/theme-detector.tsx:11-20 | the first commit sets the root `dark` class iff the detected theme is "dark"; later commits change nothing |
| ThemeProvider.ThemeWrapper.constructor | components/theme-provider.tsx:12-14 | initial mount pending, no previous theme, not transitioning, no timer |
| ThemeProvider.ThemeWrapper.Cleanup | components/theme-provider.tsx:42-45 | an armed cleanup clears the timer and removes `theme-transitioning` and nothing else |
| ThemeProvider.ThemeWrapper.Render | components/theme-provider.tsx:17-47 | an unchanged theme changes nothing; the first run only records the theme, adding no class and arming no timer or cleanup; a change replaces any pending lock with a new one: class on, flag set, theme recorded, removal at now + 1200 |
| ThemeProvider.ThemeWrapper.Advance | components/theme-provider.tsx:30-33 | a due timer removes the class and clears the flag; otherwise nothing changes |
| ThemeProvider.ThemeWrapper.Unmount | components/theme-provider.tsx:42-45 | after unmount no timer or cleanup is pending, the class is removed iff a lock was armed, and the invariant and the recorded theme and flags are kept |
| ThemeProvider.QuickSuccession | components/theme-provider.tsx:24-47 | with two changes 500 ms apart, the class survives the first change's deadline and is gone 1200 ms after the second: locks never stack |
| Page.IndexOf | app/page.tsx:137 | `indexOf`: the first index holding the value, or -1 iff it is absent |
| Page.TargetIndex | app/page.tsx:140-144 | from an index of the list or -1, the target is an index of the list, at most one step in the event's direction |
| Page.Paging | app/page.tsx:132-154 | a jump is always prevented and in range; a scroll only follows a jump to a present element; outside the cooldown a prevented event always jumps; `PagingFromSection`, `UnknownSectionGoesToIntro` and `JumpMovesOneSection` give the exact outcome |
| Page.Title | app/page.tsx:81-82 | the title for a section id; `TitleNamesSection` gives it for every id |
| Page.Home.constructor | app/page.tsx:21-23 | the active section starts empty, the last jump time at 0, the ref map empty |
| Page.Home.SetActiveSection | app/page.tsx:73 | the active section becomes the reported id |
| Page.Home.HandleWheel | app/page.tsx:129-155 | the outcome is the paging rule for direction `deltaY > 0`; the cooldown restarts iff a jump happens |
| Page.Home.HandleKeyDown | app/page.tsx:157-187 | keys other than PageUp/PageDown are not prevented and leave the cooldown alone; PageDown/PageUp follow the paging rule downwards/upwards |
| Page.Home.HandleNavigation | app/page.tsx:216-222 | the cooldown restarts unconditionally, and a scroll starts iff the target element exists |
| Page.Home.SetSectionRef | app/page.tsx:210-214 | a non-null element is registered under its id, and null leaves the map unchanged |
| Page.Home.DocumentTitle | app/page.tsx:80-83 | the title is the fixed "edgarcnp.dev" prefix followed by the active section's entry in the page's name table, or "Home" when it has none |
| Page.CooldownSuppresses | app/page.tsx:132-135 | within 900 ms of the last jump an event is prevented, jumps nowhere and scrolls nothing |
| Page.PagingFromSection | app/page.tsx:137-154 | outside the cooldown, from section k, the event jumps to k+1 (down) or k−1 (up) when that exists; at the ends it is neither prevented nor a jump |
| Page.UnknownSectionGoesToIntro | app/page.tsx:137-146 | from an id outside the list, such as the initial "", both directions jump to intro |
| Page.JumpMovesOneSection | app/page.tsx:146-154 | a jump is always prevented, lands on a different section, and moves by exactly one from a listed section; a non-prevented event never jumps or scrolls |
| Page.SingleJumpPerGesture | app/page.tsx:132-148 | after a jump at t, every event before t + 900 is swallowed, whatever the active section became meanwhile |
| Page.TitleNamesSection | app/page.tsx:80-83 | the title names each section, and any other id (including "") gives "Home" |
| Page.PageTablesVersusConstants | app/page.tsx:9-17 | the page's section tables equal the shared constants, but its 900 ms delays differ from the shared 300/600 |
| HomeRoute.ScrollPosition | src/routes/home.rs:57-63 | the midpoint is `scroll_y` (0 when unreadable) plus half the inner height, which counts as 100 when unreadable and 0 when not a number |
| HomeRoute.LastQualifying | src/routes/home.rs:68-82 | the result lies in -1 to n−1; `LastQualifyingIsGreatest` characterises it |
| HomeRoute.TrackedSection | src/routes/home.rs:65-84 | the result is always one of the four sections; `TrackedSectionCharacterised` says which |
| HomeRoute.LastQualifyingIsGreatest | src/routes/home.rs:68-82 | the reverse scan's index qualifies (element present, top at or above the midpoint) and no later index below the bound qualifies; -1 only when none does |
| HomeRoute.TrackedSectionCharacterised | src/routes/home.rs:65-84 | the tracked section is always one of the four; it is intro when none qualifies; when some section qualifies, the tracked one qualifies and no section after it does |
| HomeRoute.TrackedSectionHasGreatestTop | src/routes/home.rs:68-82 | when tops increase in document order, the tracked section has the greatest top at or above the midpoint |
| HomeRoute.ActiveSectionAt | src/routes/home.rs:65-82 | the reverse loop with `break` computes the tracked section |
| HomeRoute.ToLower | src/routes/home.rs:201 | lower-casing keeps the length and maps every character by ASCII case folding |
| HomeRoute.LowerIsAnchorTag | src/routes/home.rs:201-202 | a tag name lower-cases to "a" iff it is "a" or "A" |
| HomeRoute.IsAnchor | src/routes/home.rs:201-203 | an element ends the walk iff its tag is "a" or "A" and it is an HTML element |
| HomeRoute.ClosestAnchorLink | src/routes/home.rs:198-210 | the result is the nearest self-or-ancestor HTML element whose lower-cased tag is "a"; None iff the chain has none |
| HomeRoute.TrimStart | src/routes/home.rs:129 | the result is no longer than the input and does not start with the trimmed character |
| HomeRoute.TrimStartIsSuffix | src/routes/home.rs:129 | `trim_start_matches` yields a suffix preceded only by the trimmed character and not starting with it |
| HomeRoute.TrimStartOfPrefixed | src/routes/home.rs:129 | trimming any number of leading copies of the character gives back the unprefixed id |
| HomeRoute.InterceptTarget | src/routes/home.rs:127-129 | a target exists only for an `href` that starts with "#" and is not "#"; it is a suffix of the `href` and does not start with "#" |
| HomeRoute.InterceptTargetRule | src/routes/home.rs:126-130 | a link is intercepted iff its `href` starts with "#" and is not "#"; the target never starts with "#"; "#id" routes to id |
| HomeRoute.SectionName | src/routes/home.rs:212-220 | a section gets its name from the TypeScript page's table, and any other input is returned unchanged |
| HomeRoute.TitleSectionName | src/routes/home.rs:99-105 | a section gets its name from the TypeScript page's table, and any other input gets "Home" |
| HomeRoute.SectionNamesAgreeOnSections | src/routes/home.rs:212-220 | `get_section_name` and the title match agree on the four sections; on other inputs the first returns its input and the second "Home" |
| HomeRoute.TitleMatchesTypeScriptPage | src/routes/home.rs:98-111 | the Rust title equals the TypeScript page's title for every active section |
| HomeRoute.ThemeName | src/routes/home.rs:33 | the name is "dark" iff dark and "light" iff not |
| HomeRoute.InitialIsDark | src/routes/home.rs:21-26 | nothing stored or "dark" gives dark, and "light" gives light |
| HomeRoute.InitialThemeResolution | src/routes/home.rs:17-29 | the page starts light iff storage holds "light"; "dark", nothing or anything invalid gives dark |
| HomeRoute.AsWrittenTogglePersistsOldTheme | src/routes/home.rs:32-36 | as written, reading back what one toggle persisted restores the pre-toggle theme |
| HomeRoute.CorrectedTogglePersistsNewTheme | src/routes/home.rs:32-36 | with the corrected toggle, reading back gives the post-toggle theme |
| HomeRoute.HomePage.constructor | src/routes/home.rs:9-14 | active section intro, dark, not mounted |
| HomeRoute.HomePage.InitTheme | src/routes/home.rs:17-29 | the first run takes the dark flag from the validated stored theme (dark by default) and marks the page mounted; later runs change nothing |
| HomeRoute.HomePage.ToggleTheme | src/routes/home.rs:32-36 | as written: the flag flips, but storage and (with a document) the root class receive the pre-flip theme; without a document the root classes are unchanged |
| HomeRoute.HomePage.ToggleThemeCorrected | src/routes/home.rs:32-36 | the flag flips, and storage and (with a document) the root class receive the new theme; without a document the root classes are unchanged |
| HomeRoute.HomePage.OnScroll | src/routes/home.rs:55-85 | with a window, the active section becomes the tracked section at `scroll_y + inner_height/2` (0 and 100 when unreadable); without one nothing changes |
| HomeRoute.HomePage.OnClick | src/routes/home.rs:115-135 | the default is prevented iff the nearest anchor has an intercepted `href`, its target is the trimmed fragment, and a scroll starts iff that element exists |
| HomeRoute.HomePage.DocumentTitle | src/routes/home.rs:98-111 | the Rust title equals the TypeScript page's title for the active section |
| HomeRoute.ToggleThenReloadAsWritten | src/routes/home.rs:17-36 | on a fresh page with working storage the signal says dark, nothing is stored and the root has no `dark`; one toggle sets the signal to false, stores "dark" and adds the root `dark` class, and a reload reads dark, so the signal and the persisted theme disagree |
| HomeRoute.ToggleThenReloadCorrected | src/routes/home.rs:17-36 | from the same fresh page, the corrected toggle stores "light", leaves the root without `dark`, and the reload reads light |
| NavbarTsx.HighlightCount | components/navbar.tsx:112 | over items with distinct ids, exactly one is highlighted iff the active section is among them, and none otherwise |
| NavbarTsx.NavbarHighlightsOneSection | components/navbar.tsx:12-17 | the buttons are the four sections in order with their shared display names, and exactly one is highlighted iff the active section is a section |
| NavbarTsx.ThemeToggleLabelOffersOpposite | components/navbar.tsx:157 | the dark label offers light mode and the light label offers dark mode |
| NavbarTsx.Navbar.constructor | components/navbar.tsx:20-25 | not scrolled, closed, not animating, no timers |
| NavbarTsx.Navbar.HandleScroll | components/navbar.tsx:27-35 | an event is handled iff no throttle timer is set; a handled event sets `isScrolled` to `scrollY > 10` and the timer to now + 100; an ignored one changes nothing |
| NavbarTsx.Navbar.OpenMobileMenu | components/navbar.tsx:57-60 | open and not animating |
| NavbarTsx.Navbar.CloseMobileMenu | components/navbar.tsx:49-55 | closed, animating, and an end-of-animation callback pending at now + 300 |
| NavbarTsx.Navbar.ToggleMobileMenu | components/navbar.tsx:86 | an open menu closes with the animation, and a closed one opens |
| NavbarTsx.Navbar.HandleMobileNavigation | components/navbar.tsx:44-47 | navigates to the given id, then closes the menu as `closeMobileMenu` does |
| NavbarTsx.Navbar.Advance | components/navbar.tsx:32-54 | a due throttle timer clears; any due animation callback ends the animation; the other callbacks stay pending; the menu and scroll flags are unchanged |
| NavbarTsx.Navbar.OverlayVisible | components/navbar.tsx:188 | whether the mobile overlay shows; `CloseShowsOverlayUntilAnimationEnds` follows it through a close |
| NavbarTsx.CloseShowsOverlayUntilAnimationEnds | components/navbar.tsx:188 | the overlay stays visible during the 300 ms closing animation and disappears when its callback fires |
| NavbarRs.SameItemsAsTypeScript | src/components/navbar.rs:115-120 | both builds list the same items in the same order |
| NavbarRs.ItemHighlighting | src/components/navbar.rs:129 | exactly one item is highlighted when the active section is listed, and none otherwise |
| NavbarRs.ThemeToggleLabelOffersOpposite | src/components/navbar.rs:180 | the aria label names the opposite theme and equals the TypeScript label |
| NavbarRs.Navbar.constructor | src/components/navbar.rs:10-11 | not scrolled, menu closed |
| NavbarRs.Navbar.OnScroll | src/components/navbar.rs:17-18 | scrolled iff the offset exceeds 10, an unreadable offset counting as 0 (so not scrolled) |
| NavbarRs.Navbar.ToggleMobileMenu | src/components/navbar.rs:80-86 | the menu button flips the open flag |
| NavbarRs.Navbar.CloseMobileMenu | src/components/navbar.rs:35-37 | the menu is closed |
| NavbarRs.Navbar.HandleMobileNavigation | src/components/navbar.rs:30-33 | navigates to the given id, then the menu is closed |
| NavbarRs.Navbar.OverlayPointerEvents | src/components/navbar.rs:216-219 | whether the overlay takes pointer events; `BackdropClosesMenu` follows it through an open and a backdrop click |
| NavbarRs.BackdropClosesMenu | src/components/navbar.rs:216-221 | the overlay takes pointer events while the menu is open, and a backdrop click closes it and removes them |
| Loader.DisplayedWidth | components/loader.tsx:112 | the bar width is `min(progress, 100)`: the progress up to 100, and exactly 100 above it |
| Loader.DisplayedPercent | components/loader.tsx:118 | the shown percentage lies between 0 and 100 |
| Loader.TickValue | components/loader.tsx:19-25 | one tick of the progress updater; `TickProgress` and `RawProgressOvershoots` characterise it |
| Loader.TickProgress | components/loader.tsx:18-25 | below 100 a tick adds between 0 and 15; at or above 100 it gives exactly 100; the displayed width never decreases |
| Loader.RawProgressOvershoots | components/loader.tsx:24 | raw progress can reach 112.5 and then drop to 100, while the displayed width stays at 100 |
| Loader.Loader.constructor | components/loader.tsx:12-13 | progress 0, visible, nothing scheduled |
| Loader.Loader.Phase | components/loader.tsx:12-13 | loading, ready at 100 or hidden; the ensures of `Tick`, `HandleLoad`, `LoadEvent` and `Advance` state that it never goes back |
| Loader.Loader.Renders | components/loader.tsx:61 | the loader renders iff it is visible; `FallbackHidesLoader` shows when that ends |
| Loader.Loader.HandleLoad | components/loader.tsx:29-40 | progress 100, interval stopped, and one more hide callback at now + 300 (no guard against repeats) |
| Loader.Loader.Mount | components/loader.tsx:16-52 | the interval starts; a complete document completes at once, otherwise the `load` listener is registered; the fallback is set for now + 3000 |
| Loader.Loader.Tick | components/loader.tsx:18-26 | a running interval applies the tick rule and stops once progress had reached 100; a stopped one changes nothing; the display never decreases |
| Loader.Loader.LoadEvent | components/loader.tsx:46 | with the listener registered, `load` runs `handleLoad`; otherwise nothing changes |
| Loader.Loader.Advance | components/loader.tsx:34-52 | a due fallback runs `handleLoad` (progress 100, interval stopped), otherwise progress and the interval are unchanged; a due hide callback hides the loader and schedules `onLoadComplete` at now + 500; every due completion callback is counted |
| Loader.Loader.Unmount | components/loader.tsx:54-58 | the interval, the listener and the fallback are cancelled |
| Loader.FallbackHidesLoader | components/loader.tsx:50-61 | with no load event, after any ticks, the loader still renders at 3000 ms and renders nothing at 3300 ms, having shown 100% |
| Loader.CompletesTwice | components/loader.tsx:43-52 | with the document already complete, `onLoadComplete` is called at 800 ms and again, through the unguarded fallback, at 3800 ms |

## Left out

- Markup, styling and the static sections are not modelled. They make no decisions. This covers all view trees, class strings other than `dark` and `theme-transitioning`, the section components, and the Rust loader component.
- The eased scroll (`smoothScrollTo`, lib/scroll-utils.ts, `scroll_into_view`) is reduced to a flag saying that a scroll to the element started. It is floating-point animation driven by `requestAnimationFrame`.
- The IntersectionObserver fade-in handling and the 200 ms intro timeout of app/page.tsx are left out. They are browser callbacks on geometry. Their effect on the page is `Page.Home.SetActiveSection`.
- The `toggleTheme` callback and the `mounted`/`resolvedTheme` logic of app/page.tsx are left out. They delegate to next-themes, which is not part of this model.
- components/dynamic-navbar.tsx is not part of this model. Its logic is highlight geometry from `getBoundingClientRect`.
- Server and framework wiring is not part of this model: src/main.rs, src/lib.rs, src/components/theme_provider.rs, app/layout.tsx (only its storage key and default theme are used, as `Dom.THEME_KEY` and `Dom.DEFAULT_THEME`), app/loader-container.tsx, and the build configuration files.
- Real timers, event listener registration and `Math.random` are replaced by explicit deadlines, explicit events and a draw parameter. Timer callbacks run in deadline order only as far as the model's `Advance` calls go.
- Loader.Loader.Advance: the hide timer that a firing fallback schedules, and the completion timer that a firing hide timer schedules, are set for `now` plus their delay, not for the deadline that fired plus the delay. One `Advance` jumping past several deadlines therefore delays these chained timers. Calling `Advance` at each deadline in turn gives the source's timing. The other components' `Advance` methods schedule nothing.
- Scroll offsets, heights and loader progress are `real`, where the source has IEEE doubles. Times are unbounded integers, where the source has JavaScript numbers. No comparison the core makes depends on rounding or on the range.
- Failures of `localStorage` calls (exceptions, a failing `set_item`) are not modelled. Storage is either a map or unavailable.
- Lower-casing of tag names is ASCII only. HTML tag names are ASCII.
- `SECTION_NAMES[id]` in app/page.tsx also finds inherited object keys such as "constructor". Section ids never take such values, so `Page.Title` does not model this.
- React rendering details are not modelled: batching, StrictMode double effects, and whether a state update causes a re-render. Each effect run is an explicit method call.
- `ThemeUtilsBackup.ThemeDetection.Effect` models one run of the effect, not the dependency comparison that decides when it re-runs.
- `Loader.Loader.Mount` models the first run of the loader's effect. Re-running it when `onLoadComplete` changes identity is not modelled.
- Removing the navbar's scroll listener and throttle timer on unmount is not modelled. Nothing observable depends on it.
- The desktop navigation buttons pass their id straight to `onNavigate`/`on_navigate`. Only the mobile path, which also closes the menu, is modelled.
- The Rust `handle_navigation` only scrolls. It has no cooldown, and `HomeRoute.HomePage.OnClick` reports the scroll as a flag.
- `InitTheme` (src/routes/home.rs:17-29) only sets the `is_dark` signal and never applies the theme to the root, whose initial classes (src/lib.rs:18) hold no `dark`. The model keeps this: `HomeRoute.HomePage.InitTheme` leaves the window untouched, so a dark signal can sit beside a light root until the first toggle.
- Home passes the Rust navbar plain values, `active_section.get()` and `is_dark.get()` (src/routes/home.rs:150-151), read once when the component body runs. The navbar's highlight and theme label therefore keep their initial values, intro and dark, after mount. `NavbarRs.ItemHighlighting` and `NavbarRs.ThemeToggleLabel` are stated for a given prop value, and the model does not follow the props after mount.
- `get_closest_anchor_link` as written uses an element after moving it into a cast. `HomeRoute.ClosestAnchorLink` models the evident meaning: a non-HTML `a` is skipped.

## Findings

| source | as written | input that shows it | evidently intended | confidence | as-written member | corrected member |
|---|---|---|---|---|---|---|
| src/routes/home.rs:32-36 | `toggle_theme` computes `new_theme` from `is_dark` before flipping it, so `set_theme` persists and applies the theme being left | fresh page with working storage: the signal says dark, nothing is stored, the root has no `dark`. One toggle sets the signal to false, stores "dark" and adds the root `dark` class. A reload reads dark, so the signal and the persisted theme disagree | persist and apply the theme after the flip | not executed | HomeRoute.ToggleThenReloadAsWritten | HomeRoute.ToggleThenReloadCorrected |
