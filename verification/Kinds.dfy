/** api/v1alpha1: the closed vocabularies of failures and evidence. */
module Kinds {
  datatype FailureType =
    | CrashLoopBackOff
    | OOMKilled
    | ImagePullBackOff
    | CreateContainerConfigError
    | RunContainerError
    | Unschedulable
    | ProbeFailure
    | Evicted

  function FailureName(f: FailureType): string {
    match f
    case CrashLoopBackOff => "CrashLoopBackOff"
    case OOMKilled => "OOMKilled"
    case ImagePullBackOff => "ImagePullBackOff"
    case CreateContainerConfigError => "CreateContainerConfigError"
    case RunContainerError => "RunContainerError"
    case Unschedulable => "Unschedulable"
    case ProbeFailure => "ProbeFailure"
    case Evicted => "Evicted"
  }

  datatype EvidenceKind =
    | PreviousLogs
    | CurrentLogs
    | Events
    | WorkloadSpec
    | RolloutHistory
    | ConfigReferences
    | ServiceEndpoints
    | NodeStatus
    | SiblingPods
    | ResourceUsage

  function KindName(k: EvidenceKind): string {
    match k
    case PreviousLogs => "PreviousLogs"
    case CurrentLogs => "CurrentLogs"
    case Events => "Events"
    case WorkloadSpec => "WorkloadSpec"
    case RolloutHistory => "RolloutHistory"
    case ConfigReferences => "ConfigReferences"
    case ServiceEndpoints => "ServiceEndpoints"
    case NodeStatus => "NodeStatus"
    case SiblingPods => "SiblingPods"
    case ResourceUsage => "ResourceUsage"
  }
}
