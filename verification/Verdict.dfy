/** Verdicts and what makes one fit to emit (internal/domain/verdict.go). */
module Verdicts {
  import opened Text
  import opened Domain

  datatype Outcome = NoDuty | OK | Degraded | Missed

  datatype RewardFlags = RewardFlags(timelySource: bool, timelyTarget: bool, timelyHead: bool)
  {
    predicate AllEarned() { timelySource && timelyTarget && timelyHead }
    predicate AnyEarned() { timelySource || timelyTarget || timelyHead }
  }

  datatype Confidence = High | Medium | Low

  datatype Cause =
    | ProposerMissed | LateBlock | PayloadLate | InclusionFailure
    | P2PDegraded | CLSlow | ELSlow | ELSlowSyncing | ELSlowSnapshot | ELSlowPruning | ELSlowDiskSaturation
    | VCDisconnected | VCSlow | HostDiskIO | HostCPUSteal | HostMemoryPressure | HostClockDrift
    | InsufficientData | NoRuleMatched
  {
    /** network.* and local.* causes: everything that is not unknown.*. */
    predicate IsAttribution() { !InsufficientData? && !NoRuleMatched? }

    predicate IsSubCauseOf(parent: Cause) {
      parent.ELSlow? && (ELSlowSyncing? || ELSlowSnapshot? || ELSlowPruning? || ELSlowDiskSaturation?)
    }
  }

  datatype Unit = Milliseconds | Percent | Number | Ratio

  datatype Comparison = Comparison(name: string, observed: real, expected: real, unit: Unit)

  datatype Evidence = Evidence(at: int, offset: Duration, statement: string, source: Source,
                               comparison: Option<Comparison>)

  datatype Verdict = Verdict(
    slot: Slot, outcome: Outcome, flags: Option<RewardFlags>, cause: Option<Cause>, subCause: Option<Cause>,
    confidence: Confidence, evidence: seq<Evidence>, engineVersion: string, taxonomyVersion: string)

  const ENGINE_VERSION: string := "0.15.0"
  const TAXONOMY_VERSION: string := "4.0.0"

  /** strings.TrimSpace leaves something. */
  predicate NonBlank(s: string) {
    s != "" && (!IsSpace(s[0]) || NonBlank(s[1..]))
  }

  predicate IsSpace(c: char) {
    c == ' ' || c == '\t' || c == '\n' || c == '\r'
  }

  predicate EvidenceValid(e: Evidence) {
    NonBlank(e.statement) && e.at != 0 && (e.comparison.Some? ==> NonBlank(e.comparison.value.name))
  }

  predicate CauseFits(v: Verdict) {
    if v.outcome == NoDuty then v.cause.None? && v.subCause.None?
    else if v.cause.None? then v.outcome == OK && v.subCause.None?
    else v.subCause.None? || v.subCause.value.IsSubCauseOf(v.cause.value)
  }

  predicate FlagsFit(outcome: Outcome, flags: Option<RewardFlags>) {
    if flags.None? then outcome != Degraded
    else match outcome
      case NoDuty => false
      case OK => flags.value.AllEarned()
      case Degraded => !flags.value.AllEarned() && flags.value.AnyEarned()
      case Missed => !flags.value.AnyEarned()
  }

  /** Verdict.Validate. */
  predicate VerdictValid(v: Verdict) {
    && CauseFits(v) && FlagsFit(v.outcome, v.flags)
    && v.evidence != [] && (forall i | 0 <= i < |v.evidence| :: EvidenceValid(v.evidence[i]))
    && v.engineVersion != "" && v.taxonomyVersion != ""
  }

  /** What a rule hands to the engine. */
  datatype Draft = Draft(cause: Option<Cause>, confidence: Confidence, evidence: seq<Evidence>)

  predicate DraftWellFormed(d: Draft) {
    d.evidence != [] && forall i | 0 <= i < |d.evidence| :: EvidenceValid(d.evidence[i])
  }

  function Fact(at: int, statement: string, source: Source): Evidence {
    Evidence(at, 0, statement, source, None)
  }

  function Measured(at: int, statement: string, source: Source, name: string, observed: real, expected: real,
                    unit: Unit): Evidence {
    Evidence(at, 0, statement, source, Some(Comparison(name, observed, expected, unit)))
  }
}
