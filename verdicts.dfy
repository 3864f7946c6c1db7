/** The tri-state outcome every warrant reports, and its label in the summary table. */
module Verdicts {

  /**
   * Met, not met, or not applicable: the last means the data or the enabling
   * condition was missing, and is not a negative determination.
   */
  datatype TriState = Met | NotMet | NotApplicable

  function FromBool(b: bool): (t: TriState)
    ensures t != NotApplicable
    ensures t == Met <==> b
  {
    if b then Met else NotMet
  }

  /** The status label of one warrant in the summary table. */
  function Status(met: TriState): (shown: string)
    ensures met == NotApplicable <==> shown == "—"
    ensures met == Met <==> shown == "✓ MET"
    ensures met == NotMet <==> shown == "✗ NOT MET"
  {
    match met
    case NotApplicable => "—"
    case Met => "✓ MET"
    case NotMet => "✗ NOT MET"
  }
}
