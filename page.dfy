/** The section paging controller of the TypeScript page: wheel and PageUp/PageDown
    events become jumps to the neighbouring section, clamped to the ends of the section
    list and suppressed during a cooldown after each jump. */
module Page {
  import opened Wrappers
  import opened Dom
  import Constants
  import Math

  /** Cooldown after a jump, in milliseconds (the page's own value, not the shared table's). */
  const SCROLL_DELAY: int := 900
  /** Duration of the eased scroll, in milliseconds. */
  const SCROLL_DURATION: int := 900
  const SECTIONS: seq<string> := ["intro", "work", "thoughts", "footer"]
  const SECTION_NAMES: map<string, string> :=
    map["intro" := "Home", "work" := "Work", "thoughts" := "Thoughts", "footer" := "Contact"]
  const TITLE_PREFIX: string := "edgarcnp.dev | "

  /** `Array.prototype.indexOf`: the first index holding `x`, or -1. */
  function IndexOf(s: seq<string>, x: string): (r: int)
    ensures -1 <= r < |s|
    ensures r >= 0 ==> s[r] == x && forall j :: 0 <= j < r ==> s[j] != x
    ensures r == -1 <==> x !in s
  {
    if s == [] then -1
    else if s[0] == x then 0
    else
      var k := IndexOf(s[1..], x);
      if k == -1 then -1 else k + 1
  }

  /** The index a paging event aims at from index `current`: one further down, or up,
      clamped to the ends of the list. */
  function TargetIndex(current: int, down: bool): (r: int)
    requires -1 <= current < |SECTIONS|
    ensures 0 <= r < |SECTIONS|
    ensures down ==> current <= r <= current + 1
    ensures !down && current >= 0 ==> current - 1 <= r <= current
  {
    if down then Math.Min(current + 1, |SECTIONS| - 1) else Math.Max(current - 1, 0)
  }

  /** What one paging event does: whether its default action is prevented, the section
      index it jumps to (the cooldown restarts exactly then), and whether a scroll to that
      section starts (its element exists). */
  datatype Outcome = Outcome(prevented: bool, jump: Option<nat>, scrolled: bool)

  /** The effect of a paging event at time `now`, given the active section, the time of the
      last jump and the ids of the elements in the document. */
  function Paging(active: string, last: int, now: int, down: bool, present: set<string>): (o: Outcome)
    ensures o.jump.Some? ==> o.prevented && o.jump.value < |SECTIONS|
    ensures o.scrolled ==> o.jump.Some? && SECTIONS[o.jump.value] in present
    ensures now - last >= SCROLL_DELAY && o.prevented ==> o.jump.Some?
  {
    if now - last < SCROLL_DELAY then Outcome(true, None, false)
    else
      var current := IndexOf(SECTIONS, active);
      var next := TargetIndex(current, down);
      if next != current then Outcome(true, Some(next), SECTIONS[next] in present)
      else Outcome(false, None, false)
  }

  /** The document title for the active section; an id without a name gives "Home". */
  function Title(active: string): string
  {
    TITLE_PREFIX + if active in SECTION_NAMES then SECTION_NAMES[active] else "Home"
  }

  /** The page's state: the active section, the time of the last jump and the
      registered section elements. */
  class Home {
    var activeSection: string
    var lastScrollTime: int
    var sectionRefs: map<string, Element>

    /** The active section starts empty (no section) and no jump has happened yet. */
    constructor ()
      ensures activeSection == "" && lastScrollTime == 0 && sectionRefs == map[]
    {
      activeSection := "";
      lastScrollTime := 0;
      sectionRefs := map[];
    }

    /** The section observers (and the intro timeout) report a section as active. */
    method SetActiveSection(id: string)
      modifies this`activeSection
      ensures activeSection == id
    {
      activeSection := id;
    }

    /** `handleWheel`: a positive `deltaY` pages down, anything else pages up. */
    method HandleWheel(deltaY: real, now: int, present: set<string>) returns (o: Outcome)
      modifies this`lastScrollTime
      ensures o == Paging(activeSection, old(lastScrollTime), now, deltaY > 0.0, present)
      ensures lastScrollTime == if o.jump.Some? then now else old(lastScrollTime)
    {
      if now - lastScrollTime < SCROLL_DELAY {
        return Outcome(true, None, false);
      }
      var currentIndex := IndexOf(SECTIONS, activeSection);
      var nextIndex := currentIndex;
      if deltaY > 0.0 {
        nextIndex := Math.Min(currentIndex + 1, |SECTIONS| - 1);
      } else {
        nextIndex := Math.Max(currentIndex - 1, 0);
      }
      o := Outcome(false, None, false);
      if nextIndex != currentIndex {
        lastScrollTime := now;
        o := Outcome(true, Some(nextIndex), SECTIONS[nextIndex] in present);
      }
    }

    /** `handleKeyDown`: keys other than PageUp and PageDown are ignored outright. */
    method HandleKeyDown(key: string, now: int, present: set<string>) returns (o: Outcome)
      modifies this`lastScrollTime
      ensures key != "PageUp" && key != "PageDown" ==>
                o == Outcome(false, None, false) && lastScrollTime == old(lastScrollTime)
      ensures key == "PageUp" || key == "PageDown" ==>
                o == Paging(activeSection, old(lastScrollTime), now, key == "PageDown", present)
      ensures lastScrollTime == if o.jump.Some? then now else old(lastScrollTime)
    {
      if key != "PageUp" && key != "PageDown" {
        return Outcome(false, None, false);
      }
      if now - lastScrollTime < SCROLL_DELAY {
        return Outcome(true, None, false);
      }
      var currentIndex := IndexOf(SECTIONS, activeSection);
      var nextIndex := currentIndex;
      if key == "PageDown" {
        nextIndex := Math.Min(currentIndex + 1, |SECTIONS| - 1);
      } else if key == "PageUp" {
        nextIndex := Math.Max(currentIndex - 1, 0);
      }
      o := Outcome(false, None, false);
      if nextIndex != currentIndex {
        lastScrollTime := now;
        o := Outcome(true, Some(nextIndex), SECTIONS[nextIndex] in present);
      }
    }

    /** `handleNavigation`: restarts the cooldown unconditionally and scrolls when the
        target element exists. */
    method HandleNavigation(sectionId: string, now: int, present: set<string>) returns (scrolled: bool)
      modifies this`lastScrollTime
      ensures lastScrollTime == now
      ensures scrolled <==> sectionId in present
    {
      lastScrollTime := now;
      scrolled := sectionId in present;
    }

    /** `setSectionRef(id)(el)`: registers a non-null element; null leaves the map alone. */
    method SetSectionRef(id: string, el: Option<Element>)
      modifies this`sectionRefs
      ensures el.Some? ==> sectionRefs == old(sectionRefs)[id := el.value]
      ensures el.None? ==> sectionRefs == old(sectionRefs)
    {
      if el.Some? {
        sectionRefs := sectionRefs[id := el.value];
      }
    }

    /** The title the page sets for its current active section. */
    function DocumentTitle(): (t: string)
      reads this
      ensures t == TITLE_PREFIX + if activeSection in SECTION_NAMES then SECTION_NAMES[activeSection] else "Home"
    {
      Title(activeSection)
    }
  }

  /** During the cooldown an event is prevented and does nothing else. */
  lemma CooldownSuppresses(active: string, last: int, now: int, down: bool, present: set<string>)
    requires now - last < SCROLL_DELAY
    ensures Paging(active, last, now, down, present) == Outcome(true, None, false)
  {
  }

  /** Outside the cooldown, from a section of the list, an event jumps exactly to the
      neighbour in its direction when there is one; at the first section upwards and at the
      last downwards it is neither prevented nor does it restart the cooldown. */
  lemma PagingFromSection(k: nat, last: int, now: int, down: bool, present: set<string>)
    requires k < |SECTIONS| && now - last >= SCROLL_DELAY
    ensures var o := Paging(SECTIONS[k], last, now, down, present);
            && (down && k < |SECTIONS| - 1 ==> o == Outcome(true, Some(k + 1), SECTIONS[k + 1] in present))
            && (!down && k > 0 ==> o == Outcome(true, Some(k - 1), SECTIONS[k - 1] in present))
            && (down && k == |SECTIONS| - 1 ==> o == Outcome(false, None, false))
            && (!down && k == 0 ==> o == Outcome(false, None, false))
  {
    Constants.SectionsAreFixed();
    assert SECTIONS == Constants.SECTIONS;
    assert IndexOf(SECTIONS, SECTIONS[k]) == k;
  }

  /** An active section outside the list (initially the empty string) makes both directions
      jump to the first section, "intro". */
  lemma UnknownSectionGoesToIntro(active: string, last: int, now: int, down: bool, present: set<string>)
    requires active !in SECTIONS && now - last >= SCROLL_DELAY
    ensures Paging(active, last, now, down, present) == Outcome(true, Some(0), "intro" in present)
  {
  }

  /** A jump always lands on a section different from the active one, and the event is then
      prevented; a non-prevented event never jumps. */
  lemma JumpMovesOneSection(active: string, last: int, now: int, down: bool, present: set<string>)
    ensures var o := Paging(active, last, now, down, present);
            && (o.jump.Some? ==> o.prevented && o.jump.value < |SECTIONS| && SECTIONS[o.jump.value] != active)
            && (o.jump.Some? && active in SECTIONS ==>
                  var k := IndexOf(SECTIONS, active);
                  o.jump.value == (if down then k + 1 else k - 1))
            && (!o.prevented ==> o.jump.None? && !o.scrolled)
  {
    Constants.SectionsAreFixed();
    assert SECTIONS == Constants.SECTIONS;
  }

  /** A gesture: after a jump at `t`, any further event before `t + SCROLL_DELAY` is
      swallowed, whatever the section in between became. */
  lemma SingleJumpPerGesture(active: string, active': string, last: int, t: int, t': int,
                             down: bool, down': bool, present: set<string>)
    requires Paging(active, last, t, down, present).jump.Some?
    requires t <= t' < t + SCROLL_DELAY
    ensures Paging(active', t, t', down', present) == Outcome(true, None, false)
  {
  }

  /** The title names each section and falls back to "Home" for any other id. */
  lemma TitleNamesSection(active: string)
    ensures active == "intro" || active == "" ==> Title(active) == TITLE_PREFIX + "Home"
    ensures active == "work" ==> Title(active) == TITLE_PREFIX + "Work"
    ensures active == "thoughts" ==> Title(active) == TITLE_PREFIX + "Thoughts"
    ensures active == "footer" ==> Title(active) == TITLE_PREFIX + "Contact"
    ensures active !in SECTIONS ==> Title(active) == TITLE_PREFIX + "Home"
  {
  }

  /** The page's tables agree with the shared constants, but its cooldown and scroll
      duration do not. */
  lemma PageTablesVersusConstants()
    ensures SECTIONS == Constants.SECTIONS && SECTION_NAMES == Constants.SECTION_NAMES
    ensures SCROLL_DELAY != Constants.SCROLL_DELAY && SCROLL_DURATION != Constants.SCROLL_DURATION
  {
  }
}
