/** The availability indicator of the Rust intro section. */
module IntroSection {
  import Constants

  datatype AvailabilityStatus = Available | Busy | Dnd {

    /** The dot colour class. */
    function Color(): string {
      match this
      case Available => "bg-green-500"
      case Busy => "bg-yellow-500"
      case Dnd => "bg-red-500"
    }

    /** The status text. */
    function Text(): string {
      match this
      case Available => "Available for work"
      case Busy => "Busy with projects"
      case Dnd => "Not available"
    }

    /** The name of the matching key of the TypeScript `AVAILABILITY_STATUS` table. */
    function TypeKey(): string {
      match this
      case Available => "AVAILABLE"
      case Busy => "BUSY"
      case Dnd => "DND"
    }
  }

  /** The status the page currently shows. */
  const CURRENT_AVAILABILITY_STATUS: AvailabilityStatus := Busy

  /** The Rust colour and text agree with the TypeScript status table for every status. */
  lemma AgreesWithStatusConfig(s: AvailabilityStatus)
    ensures s.TypeKey() in Constants.AVAILABILITY_STATUS
    ensures Constants.AVAILABILITY_STATUS[s.TypeKey()] in Constants.STATUS_CONFIG
    ensures Constants.STATUS_CONFIG[Constants.AVAILABILITY_STATUS[s.TypeKey()]]
            == Constants.StatusEntry(s.Color(), s.Text())
  {
  }

  /** Distinct statuses show distinct colours and distinct texts. */
  lemma IndicatorsDistinguishStatuses(s: AvailabilityStatus, t: AvailabilityStatus)
    ensures s.Color() == t.Color() <==> s == t
    ensures s.Text() == t.Text() <==> s == t
  {
  }

  /** The rendered indicator is yellow with the busy text. */
  lemma CurrentIndicator()
    ensures CURRENT_AVAILABILITY_STATUS.Color() == "bg-yellow-500"
    ensures CURRENT_AVAILABILITY_STATUS.Text() == "Busy with projects"
  {
  }
}
