/** internal/tools/catalog.go and the tool table of internal/controller/investigator_controller.go:
    which tool reads which kind of evidence. */
module Catalog {
  import opened Wrappers
  import opened Kinds
  import opened Text
  import opened Prompt
  import opened Conversation
  import opened Tools
  import opened Investigation

  const CATALOGUE: set<string> := {
    "get_pod_logs", "get_pod_events", "get_workload_spec", "get_recent_changes", "get_related_pods",
    "get_service_endpoints", "get_node_status", "get_config_references", "get_resource_usage",
    "search_similar_diagnoses"}

  /** The kind of evidence a catalogue entry's handler gathers for its arguments; the history search
      gathers none. */
  function KindRead(name: string, arguments: Arguments): Option<EvidenceKind> {
    if name == "get_pod_logs" then Some(if arguments.previous then PreviousLogs else CurrentLogs)
    else if name == "get_pod_events" then Some(Events)
    else if name == "get_workload_spec" then Some(WorkloadSpec)
    else if name == "get_recent_changes" then Some(RolloutHistory)
    else if name == "get_related_pods" then Some(SiblingPods)
    else if name == "get_service_endpoints" then Some(ServiceEndpoints)
    else if name == "get_node_status" then Some(NodeStatus)
    else if name == "get_config_references" then Some(ConfigReferences)
    else if name == "get_resource_usage" then Some(ResourceUsage)
    else None
  }

  /** The tool the controller names for a kind. */
  function ToolFor(k: EvidenceKind): string {
    match k
    case PreviousLogs => "get_pod_logs"
    case CurrentLogs => "get_pod_logs"
    case Events => "get_pod_events"
    case WorkloadSpec => "get_workload_spec"
    case RolloutHistory => "get_recent_changes"
    case ConfigReferences => "get_config_references"
    case ServiceEndpoints => "get_service_endpoints"
    case NodeStatus => "get_node_status"
    case SiblingPods => "get_related_pods"
    case ResourceUsage => "get_resource_usage"
  }

  /** The controller's test of whether a call gathers a kind; the two log kinds share a tool. */
  function Satisfier(k: EvidenceKind): (string, Arguments) -> bool {
    if k.PreviousLogs? || k.CurrentLogs? then
      (name: string, arguments: Arguments) => name == ToolFor(k) && arguments.previous == k.PreviousLogs?
    else
      (name: string, arguments: Arguments) => name == ToolFor(k)
  }

  /** The two tables agree: a call satisfies a kind exactly when the tool it names reads that kind. */
  lemma SatisfierAgreesWithCatalogue(k: EvidenceKind, name: string, arguments: Arguments)
    ensures Satisfier(k)(name, arguments) <==> KindRead(name, arguments) == Some(k)
    ensures Satisfier(k)(name, arguments) ==> name in CATALOGUE
  {
    var t := ToolFor(k);
    match k
    case PreviousLogs => assert |t| == 12;
    case CurrentLogs => assert |t| == 12;
    case Events => assert |t| == 14;
    case WorkloadSpec => assert |t| == 17;
    case RolloutHistory => assert |t| == 18 && t[5] == 'e';
    case ConfigReferences => assert |t| == 21 && t[4] == 'c';
    case ServiceEndpoints => assert |t| == 21 && t[4] == 's';
    case NodeStatus => assert |t| == 15;
    case SiblingPods => assert |t| == 16;
    case ResourceUsage => assert |t| == 18 && t[5] == 'e' && t[6] == 's';
  }

  /** What each tool reads. */
  lemma CatalogueReads(arguments: Arguments)
    ensures KindRead("get_pod_logs", arguments) == Some(if arguments.previous then PreviousLogs else CurrentLogs)
    ensures KindRead("get_pod_events", arguments) == Some(Events)
    ensures KindRead("get_workload_spec", arguments) == Some(WorkloadSpec)
    ensures KindRead("get_recent_changes", arguments) == Some(RolloutHistory)
    ensures KindRead("get_related_pods", arguments) == Some(SiblingPods)
    ensures KindRead("get_service_endpoints", arguments) == Some(ServiceEndpoints)
    ensures KindRead("get_node_status", arguments) == Some(NodeStatus)
    ensures KindRead("get_config_references", arguments) == Some(ConfigReferences)
    ensures KindRead("get_resource_usage", arguments) == Some(ResourceUsage)
    ensures KindRead("search_similar_diagnoses", arguments) == None
  {
  }

  /** Calling the tool named for a kind reads that kind. */
  lemma ToolReadsKind(k: EvidenceKind, arguments: Arguments)
    requires k.PreviousLogs? || k.CurrentLogs? ==> arguments.previous == k.PreviousLogs?
    ensures KindRead(ToolFor(k), arguments) == Some(k) && ToolFor(k) in CATALOGUE
  {
    SatisfierAgreesWithCatalogue(k, ToolFor(k), arguments);
  }

  lemma NoTagWithoutAngle(s: string)
    requires '<' !in s
    ensures !Contains(s, CLOSING)
  {
    forall i ensures !OccursAt(CLOSING, s, i) {
      assert CLOSING[0] == '<';
      assert 0 <= i < |s| ==> s[i..][0] == s[i] != '<';
    }
  }

  lemma NamesArePlain(name: string, k: nat)
    requires name in CATALOGUE
    ensures !Contains(name, CLOSING) && !Contains(EvidenceId(k), CLOSING)
  {
    assert '<' !in "get_pod_logs" && '<' !in "get_pod_events" && '<' !in "get_workload_spec";
    assert '<' !in "get_recent_changes" && '<' !in "get_related_pods" && '<' !in "get_service_endpoints";
    assert '<' !in "get_node_status" && '<' !in "get_config_references" && '<' !in "get_resource_usage";
    assert '<' !in "search_similar_diagnoses";
    NoTagWithoutAngle(name);
    NoTagWithoutAngle(EvidenceId(k));
  }

  /** Whatever a read returned, the block it is shown in ends exactly once: only catalogue tools ever
      succeed, and neither their names nor the evidence identifiers carry the closing tag. */
  lemma ShownEvidenceEndsOnce(registry: Registry, maxCalls: int, made: nat, call: ToolCall, k: nat, i: int)
    requires registry.tools == CATALOGUE
    requires Answer(registry, maxCalls, made, call.name, call.arguments).Read?
    ensures var w := WrapEvidence(EvidenceId(k), call.name,
                                  Answer(registry, maxCalls, made, call.name, call.arguments).content);
            OccursAt(CLOSING, w, i) <==> i == |w| - 11
  {
    hide WrapEvidence, EvidenceId, OccursAt, Contains;
    NamesArePlain(call.name, k);
    WrappedBlockEndsOnce(EvidenceId(k), call.name,
                         Answer(registry, maxCalls, made, call.name, call.arguments).content);
  }
}
