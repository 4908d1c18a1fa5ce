/** The shared data contracts and their two lifecycle tables. */
module Contract {

  /** Nanoseconds since Go's zero time, so that `IsZero` is comparison with 0. */
  type Time = int

  const ZERO_TIME: Time := 0
  const SECOND: int := 1_000_000_000

  const MAX_ID: nat := 128
  const MAX_KEY: nat := 256

  const DOCKER_ADAPTER: string := "docker"

  /* The `Other*` constructors stand for every string outside the enumeration. */
  datatype Schema = V1 | OtherSchema
  datatype RiskTier = RiskLow | RiskMedium | RiskHigh | OtherRisk
  datatype ActionType = ContainerRestart | ComposeServiceRestart | OtherAction
  datatype ApprovalDecision = Granted | Refused | OtherDecision

  datatype ProbeRule = ProbeRule(
    ruleID: string, signalType: string, interval: int, threshold: real,
    consecutiveFailures: int, recoverySamples: int, sloWindow: int)

  datatype ServiceTarget = ServiceTarget(
    schema: Schema, targetID: string, adapterType: string, selector: string,
    probeRules: seq<ProbeRule>, enabled: bool)

  datatype TypedAction = TypedAction(
    actionType: ActionType, targetSelector: string, stopTimeout: int, cooldown: int)

  datatype Runbook = Runbook(
    schema: Schema, runbookID: string, digest: string, typedActions: seq<TypedAction>,
    riskTier: RiskTier, autoExecute: bool, approvalRequired: bool,
    preconditions: seq<string>, maxAttempts: int, recoverySamples: int, window: int)

  datatype Approval = Approval(
    schema: Schema, approvalID: string, commandID: string, decision: ApprovalDecision,
    approver: string, reason: string, createdAt: Time, expiresAt: Time)

  /** The bounded Docker state; the zero value is `NO_SNAPSHOT`. */
  datatype DockerSnapshot = DockerSnapshot(targetID: string, running: bool, healthy: bool)

  const NO_SNAPSHOT := DockerSnapshot("", false, false)

  /* ---- Recovery commands ---- */

  datatype CommandState =
    Pending | Approved | Executing | Stabilizing | Succeeded | Failed | Denied | Expired

  datatype RecoveryCommand = RecoveryCommand(
    schema: Schema, commandID: string, incidentID: string, runbookID: string,
    runbookDigest: string, targetID: string, actionIndex: int, riskTier: RiskTier,
    approvalID: string, issuedAt: Time, expiresAt: Time, idempotencyKey: string,
    state: CommandState)

  predicate CanTransition(from: CommandState, to: CommandState) {
    match from
    case Pending => to == Approved || to == Denied || to == Expired
    case Approved => to == Executing || to == Expired
    case Executing => to == Stabilizing || to == Failed
    case Stabilizing => to == Succeeded || to == Failed
    case _ => false
  }

  predicate ValidCommand(c: RecoveryCommand) {
    && c.schema == V1
    && c.commandID != ""
    && c.actionIndex >= 0
    && c.issuedAt != ZERO_TIME
    && c.expiresAt != ZERO_TIME
    && c.expiresAt > c.issuedAt
  }

  /* ---- Incidents ---- */

  datatype IncidentState =
    Open | Analyzing | AwaitingApproval | Recovering | IncidentStabilizing | Closed | IncidentFailed

  predicate CanIncidentTransition(from: IncidentState, to: IncidentState) {
    match from
    case Open => to == Analyzing || to == Closed || to == IncidentFailed
    case Analyzing => to == AwaitingApproval || to == Recovering || to == Closed || to == IncidentFailed
    case AwaitingApproval => to == Recovering || to == Closed || to == IncidentFailed
    case Recovering => to == IncidentStabilizing || to == IncidentFailed
    case IncidentStabilizing => to == Closed || to == IncidentFailed
    case _ => false
  }

  predicate TerminalIncident(s: IncidentState) {
    s == Closed || s == IncidentFailed
  }
}
