/** The navigation and availability tables shared by the TypeScript components. */
module Constants {
  import opened Wrappers

  /** The page sections in document order; this order defines next and previous. */
  const SECTIONS: seq<string> := ["intro", "work", "thoughts", "footer"]

  /** Display name of each section. */
  const SECTION_NAMES: map<string, string> :=
    map["intro" := "Home", "work" := "Work", "thoughts" := "Thoughts", "footer" := "Contact"]

  /** Cooldown between two paging jumps, in milliseconds. */
  const SCROLL_DELAY: int := 300
  /** Duration of the eased scroll animation, in milliseconds. */
  const SCROLL_DURATION: int := 600

  /** `AVAILABILITY_STATUS`: type-level key to runtime value. */
  const AVAILABILITY_STATUS: map<string, string> :=
    map["AVAILABLE" := "available", "BUSY" := "busy", "DND" := "dnd"]

  datatype StatusEntry = StatusEntry(color: string, text: string)

  /** `STATUS_CONFIG`, keyed by the lower-case runtime values. */
  const STATUS_CONFIG: map<string, StatusEntry> := map[
    "available" := StatusEntry("bg-green-500", "Available for work"),
    "busy" := StatusEntry("bg-yellow-500", "Busy with projects"),
    "dnd" := StatusEntry("bg-red-500", "Not available")
  ]

  /** True iff no value is repeated in `s`. */
  predicate Distinct(s: seq<string>) {
    forall i, j :: 0 <= i < j < |s| ==> s[i] != s[j]
  }

  /** The sections are exactly intro, work, thoughts, footer, in that order, with no repeats. */
  lemma SectionsAreFixed()
    ensures |SECTIONS| == 4 && Distinct(SECTIONS)
    ensures SECTIONS[0] == "intro" && SECTIONS[3] == "footer"
  {
  }

  /** Every section has a display name and nothing else has one. */
  lemma SectionNamesCoverSections()
    ensures SECTION_NAMES.Keys == set s | s in SECTIONS
    ensures SECTION_NAMES["intro"] == "Home" && SECTION_NAMES["work"] == "Work"
    ensures SECTION_NAMES["thoughts"] == "Thoughts" && SECTION_NAMES["footer"] == "Contact"
  {
  }

  /** The status table is keyed by the runtime values, not by the key names that form the
      `AvailabilityStatus` type, so indexing it with a value of that type finds nothing. */
  lemma StatusConfigKeyedByValues()
    ensures STATUS_CONFIG.Keys == AVAILABILITY_STATUS.Values
    ensures forall k :: k in AVAILABILITY_STATUS ==> k !in STATUS_CONFIG
  {
    assert AVAILABILITY_STATUS.Values == {"available", "busy", "dnd"} by {
      assert AVAILABILITY_STATUS["AVAILABLE"] == "available";
      assert AVAILABILITY_STATUS["BUSY"] == "busy";
      assert AVAILABILITY_STATUS["DND"] == "dnd";
    }
  }
}
