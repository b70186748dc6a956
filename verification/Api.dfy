/** api/v1alpha1/diagnosis_types.go: the object the pipeline advances. */
module Api {
  import opened Wrappers
  import opened Kinds
  import opened Evidence
  import opened Validation
  import opened Tools

  datatype Owner = Owner(kind: string, name: string)

  datatype Target = Target(name: string, uid: string, owner: Option<Owner>)

  /** Written once, when the failure is detected. */
  datatype Spec = Spec(
    target: Target,
    failureType: FailureType,
    container: string,
    signature: string,
    observedAt: int,
    policyRef: string)

  /** The phases the three controllers reach. An object exists without one between its creation and
      the detector's first status write. */
  datatype Phase = NoPhase | Detected | Enriched | Hypothesized

  datatype Timings = Timings(detectedAt: Option<int>, enrichedAt: Option<int>, hypothesizedAt: Option<int>)

  datatype InvestigationRecord = InvestigationRecord(
    provider: string,
    toolCalls: seq<AuditRecord>,
    tokensUsed: int,
    cost: int,
    budgetExhausted: bool,
    stopReason: string,
    degraded: bool,
    turns: nat)

  datatype Status = Status(
    phase: Phase,
    timings: Timings,
    evidence: Option<Evidence>,
    investigation: Option<InvestigationRecord>,
    hypotheses: seq<Hypothesis>)

  const EMPTY_STATUS := Status(NoPhase, Timings(None, None, None), None, None, [])

  datatype AgentConfig = AgentConfig(maxToolCalls: int, maxTokens: int, maxCost: int)
}
