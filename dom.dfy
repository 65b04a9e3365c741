/**
 * The parts of the browser the core reads and writes: the theme entry in
 * local storage, the class list of the root `<html>` element, the
 * colour-scheme media query, and the JavaScript truthiness rules the
 * TypeScript components rely on.
 */
module Dom {
  import opened Wrappers

  /** Key under which every variant of the site persists the theme. */
  const THEME_KEY: string := "edgarcnp-theme"
  /** Root class that switches the stylesheet to the dark palette. */
  const DARK_CLASS: string := "dark"
  /** Root class that enables the colour transition while the theme changes. */
  const TRANSITION_CLASS: string := "theme-transitioning"
  /** Theme used when nothing else decides. */
  const DEFAULT_THEME: string := "dark"

  /** An element as the core sees it: its id, tag name, whether it is an
      HTML element (an SVG `<a>` is not), its `href` attribute and its
      `offsetTop` in pixels. */
  datatype Element = Element(id: string, tagName: string, isHtml: bool, href: Option<string>, offsetTop: int)

  /** `document.getElementById`: the element registered under `id`, if any. */
  function GetElementById(doc: map<string, Element>, id: string): (r: Option<Element>)
    ensures r.Some? <==> id in doc
    ensures r.Some? ==> r.value == doc[id]
  {
    if id in doc then Some(doc[id]) else None
  }

  /** A JavaScript string value (`undefined`/`null` is None) is truthy iff it is present and non-empty. */
  predicate Truthy(s: Option<string>) {
    s.Some? && s.value != ""
  }

  /** The JavaScript expression `a || b` for a possibly-missing string `a`. */
  function Or(a: Option<string>, b: string): (r: string)
    ensures Truthy(a) ==> r == a.value
    ensures !Truthy(a) ==> r == b
  {
    if Truthy(a) then a.value else b
  }

  /** The root class list after the dark class is added (`dark`) or removed (not `dark`). */
  function ApplyDark(classes: set<string>, dark: bool): (r: set<string>)
    ensures DARK_CLASS in r <==> dark
    ensures r - {DARK_CLASS} == classes - {DARK_CLASS}
  {
    if dark then classes + {DARK_CLASS} else classes - {DARK_CLASS}
  }

  /**
   * The browser window. `storage` is None when local storage is unavailable;
   * `hasDocument` is false when the window has no document; `prefersDark` is
   * the result of the `(prefers-color-scheme: dark)` query, None when media
   * queries are unavailable.
   */
  class Window {
    var storage: Option<map<string, string>>
    const hasDocument: bool
    var rootClasses: set<string>
    const prefersDark: Option<bool>

    constructor (storage: Option<map<string, string>>, hasDocument: bool, rootClasses: set<string>, prefersDark: Option<bool>)
      ensures this.storage == storage && this.hasDocument == hasDocument
      ensures this.rootClasses == rootClasses && this.prefersDark == prefersDark
    {
      this.storage := storage;
      this.hasDocument := hasDocument;
      this.rootClasses := rootClasses;
      this.prefersDark := prefersDark;
    }

    /** `localStorage.getItem(THEME_KEY)`: the raw stored string, None when absent or storage is unavailable. */
    function StoredItem(): (r: Option<string>)
      reads this
      ensures r.Some? <==> storage.Some? && THEME_KEY in storage.value
      ensures r.Some? ==> r.value == storage.value[THEME_KEY]
    {
      if storage.Some? && THEME_KEY in storage.value then Some(storage.value[THEME_KEY]) else None
    }
  }
}
