/** internal/controller/pod_controller.go and internal/tools/scope.go: the workload a failure is
    attributed to, and the workload a broker will read. */
module Workload {
  import opened Wrappers
  import opened Kinds
  import opened Detector
  import opened Api

  /** What reading a ReplicaSet gives. */
  datatype Lookup = Found(uid: string, owners: seq<OwnerReference>) | Missing | Unreadable(error: string)

  /** The ReplicaSets of a cluster, by namespace and name. */
  type Cluster = (string, string) -> Lookup

  datatype WorkloadRef = WorkloadRef(kind: string, name: string, uid: string)

  datatype Resolved = Resolved(workload: WorkloadRef) | ResolveError(error: string)

  /** The first owner reference marked as controlling. */
  function ControllerOf(owners: seq<OwnerReference>): Option<OwnerReference> {
    if owners == [] then None
    else if owners[0].controller then Some(owners[0])
    else ControllerOf(owners[1..])
  }

  function ResolveWorkload(cluster: Cluster, pod: Pod): Resolved {
    match ControllerOf(pod.owners)
    case None => Resolved(WorkloadRef("Pod", pod.name, pod.uid))
    case Some(ref) =>
      if ref.kind != "ReplicaSet" then Resolved(WorkloadRef(ref.kind, ref.name, ""))
      else
        match cluster(pod.namespaceName, ref.name)
        case Missing => Resolved(WorkloadRef(ref.kind, ref.name, ""))
        case Unreadable(error) => ResolveError(error)
        case Found(uid, owners) =>
          match ControllerOf(owners)
          case Some(top) => Resolved(WorkloadRef(top.kind, top.name, top.uid))
          case None => Resolved(WorkloadRef(ref.kind, ref.name, uid))
  }

  /** Every branch of the attribution, by what the pod and its ReplicaSet say: a pod without a controller
      stands for itself; any controller but a ReplicaSet is the workload; a ReplicaSet that is missing or
      has no controller of its own is the workload, and otherwise its controller is. */
  lemma AttributionMeans(cluster: Cluster, pod: Pod, ref: OwnerReference)
    ensures ControllerOf(pod.owners).None? ==>
              ResolveWorkload(cluster, pod) == Resolved(WorkloadRef("Pod", pod.name, pod.uid))
    ensures ControllerOf(pod.owners) == Some(ref) && ref.kind != "ReplicaSet" ==>
              ResolveWorkload(cluster, pod) == Resolved(WorkloadRef(ref.kind, ref.name, ""))
    ensures ControllerOf(pod.owners) == Some(ref) && ref.kind == "ReplicaSet" ==>
              var middle := cluster(pod.namespaceName, ref.name);
              && (middle.Unreadable? ==> ResolveWorkload(cluster, pod) == ResolveError(middle.error))
              && (middle.Missing? ==> ResolveWorkload(cluster, pod) == Resolved(WorkloadRef("ReplicaSet", ref.name, "")))
              && (middle.Found? && ControllerOf(middle.owners).None? ==>
                    ResolveWorkload(cluster, pod) == Resolved(WorkloadRef("ReplicaSet", ref.name, middle.uid)))
              && (middle.Found? && ControllerOf(middle.owners).Some? ==>
                    var top := ControllerOf(middle.owners).value;
                    ResolveWorkload(cluster, pod) == Resolved(WorkloadRef(top.kind, top.name, top.uid)))
  {
  }

  /** The controller is the first owner that says it controls; there is none only if none does. */
  lemma {:induction false} ControllerIsFirst(owners: seq<OwnerReference>)
    ensures ControllerOf(owners).None? <==> forall i :: 0 <= i < |owners| ==> !owners[i].controller
    ensures forall i :: 0 <= i < |owners| && owners[i].controller && (forall k :: 0 <= k < i ==> !owners[k].controller)
              ==> ControllerOf(owners) == Some(owners[i])
  {
    if owners != [] {
      var tail := owners[1..];
      ControllerIsFirst(tail);
      assert forall i :: 1 <= i < |owners| ==> owners[i] == tail[i - 1];
    }
  }

  /** Pods under one controller of one namespace are attributed alike, whatever becomes of a ReplicaSet
      between: replicas that fail together fail as one workload. */
  lemma ReplicasShareAWorkload(cluster: Cluster, pod: Pod, sibling: Pod)
    requires pod.namespaceName == sibling.namespaceName
    requires ControllerOf(pod.owners).Some? && ControllerOf(sibling.owners).Some?
    requires ControllerOf(pod.owners).value.kind == ControllerOf(sibling.owners).value.kind
    requires ControllerOf(pod.owners).value.name == ControllerOf(sibling.owners).value.name
    ensures ResolveWorkload(cluster, pod) == ResolveWorkload(cluster, sibling)
  {
  }

  /** The spec of a new diagnosis: a pod attributed to itself has no owner recorded. */
  function SpecFor(
      pod: Pod, workload: WorkloadRef, signal: Signal, policy: string, signature: string, observedAt: int): Spec
  {
    var owner := if workload.kind != "Pod" then Some(Owner(workload.kind, workload.name)) else None;
    Spec(Target(pod.name, pod.uid, owner), signal.failureType, signal.container, signature, observedAt, policy)
  }

  datatype Scope = Scope(
    namespaceName: string,
    diagnosisName: string,
    failureType: FailureType,
    container: string,
    targetPod: string,
    ownerKind: string,
    ownerName: string,
    maxCalls: int)

  function ScopeForDiagnosis(namespaceName: string, name: string, spec: Spec, maxCalls: int): Scope {
    match spec.target.owner
    case None =>
      Scope(namespaceName, name, spec.failureType, spec.container, spec.target.name, "Pod", spec.target.name, maxCalls)
    case Some(owner) =>
      Scope(namespaceName, name, spec.failureType, spec.container, spec.target.name, owner.kind, owner.name, maxCalls)
  }

  /** A broker may read for its own diagnosis only: its namespace, its pod, its container and failure, and
      the recorded owner or, without one, the pod itself. */
  lemma ScopeMeans(namespaceName: string, name: string, spec: Spec, maxCalls: int)
    ensures var scope := ScopeForDiagnosis(namespaceName, name, spec, maxCalls);
            && scope.namespaceName == namespaceName && scope.diagnosisName == name && scope.maxCalls == maxCalls
            && scope.targetPod == spec.target.name && scope.container == spec.container
            && scope.failureType == spec.failureType
            && (spec.target.owner.Some? ==>
                  scope.ownerKind == spec.target.owner.value.kind && scope.ownerName == spec.target.owner.value.name)
            && (spec.target.owner.None? ==> scope.ownerKind == "Pod" && scope.ownerName == spec.target.name)
  {
  }

  datatype Membership = Member(inside: bool) | MemberError(error: string)

  function InWorkload(scope: Scope, cluster: Cluster, pod: Pod): Membership {
    if pod.namespaceName != scope.namespaceName then Member(false)
    else if scope.ownerKind == "Pod" then Member(pod.name == scope.ownerName)
    else
      match ControllerOf(pod.owners)
      case None => Member(false)
      case Some(ref) =>
        if ref.kind == scope.ownerKind && ref.name == scope.ownerName then Member(true)
        else if ref.kind != "ReplicaSet" || scope.ownerKind != "Deployment" then Member(false)
        else
          match cluster(pod.namespaceName, ref.name)
          case Missing => Member(false)
          case Unreadable(error) => MemberError(error)
          case Found(_, owners) =>
            var top := ControllerOf(owners);
            Member(top.Some? && top.value.kind == "Deployment" && top.value.name == scope.ownerName)
  }

  // ----- which pod a tool call reads -----

  /** What reading a pod by name gives, and what listing a namespace gives. */
  datatype PodRead = Live(pod: Pod) | Gone | PodError(error: string)
  datatype PodList = Listed(pods: seq<Pod>) | ListError(error: string)

  /** The pods of a cluster, by namespace and name, and by namespace. */
  datatype Pods = Pods(get: (string, string) -> PodRead, list: string -> PodList)

  /** A call is served a pod, denied, or fails. */
  datatype Serving = Serves(pod: Pod) | Denied(reason: string) | Failed(error: string)

  /** An empty name means the diagnosed pod. */
  function ResolvePod(scope: Scope, cluster: Cluster, pods: Pods, name: string): Serving {
    if name == "" then DefaultPod(scope, cluster, pods)
    else
      match pods.get(scope.namespaceName, name)
      case Gone => Denied("pod does not exist in the investigated workload: " + name)
      case PodError(error) => Failed(error)
      case Live(pod) =>
        match InWorkload(scope, cluster, pod)
        case MemberError(error) => Failed(error)
        case Member(inside) =>
          if inside then Serves(pod) else Denied("pod is outside the investigated workload: " + name)
  }

  function DefaultPod(scope: Scope, cluster: Cluster, pods: Pods): Serving {
    match pods.get(scope.namespaceName, scope.targetPod)
    case Live(pod) => Serves(pod)
    case PodError(error) => Failed(error)
    case Gone =>
      match pods.list(scope.namespaceName)
      case ListError(error) => Failed(error)
      case Listed(items) => FirstMember(scope, cluster, items)
  }

  function FirstMember(scope: Scope, cluster: Cluster, items: seq<Pod>): Serving {
    if items == [] then Denied("the diagnosed pod is gone and the workload has no remaining pods")
    else
      match InWorkload(scope, cluster, items[0])
      case MemberError(error) => Failed(error)
      case Member(inside) => if inside then Serves(items[0]) else FirstMember(scope, cluster, items[1..])
  }

  /** A call that names a pod is served exactly that pod, and only if it exists and is a member; it is
      denied exactly when the pod is known to be missing or foreign. */
  lemma NamedPodIsChecked(scope: Scope, cluster: Cluster, pods: Pods, name: string, pod: Pod)
    requires name != ""
    ensures ResolvePod(scope, cluster, pods, name) == Serves(pod) <==>
            pods.get(scope.namespaceName, name) == Live(pod) && InWorkload(scope, cluster, pod) == Member(true)
    ensures ResolvePod(scope, cluster, pods, name).Denied? <==>
            var read := pods.get(scope.namespaceName, name);
            read.Gone? || (read.Live? && InWorkload(scope, cluster, read.pod) == Member(false))
  {
  }

  /** The position of the first pod that is not known to be foreign; the length when there is none. */
  ghost predicate FirstPossible(scope: Scope, cluster: Cluster, items: seq<Pod>, i: nat) {
    && i <= |items|
    && (forall k :: 0 <= k < i ==> InWorkload(scope, cluster, items[k]) == Member(false))
    && (i < |items| ==> InWorkload(scope, cluster, items[i]) != Member(false))
  }

  /** The replacement for a pod that is gone is the first member of the listing, reached only past pods
      known to be foreign; an unreadable membership on the way fails the call. */
  lemma {:induction false} ReplacementIsAMember(scope: Scope, cluster: Cluster, items: seq<Pod>, i: nat)
    requires FirstPossible(scope, cluster, items, i)
    ensures FirstMember(scope, cluster, items).Denied? <==> i == |items|
    ensures forall pod :: FirstMember(scope, cluster, items) == Serves(pod) <==>
              i < |items| && pod == items[i] && InWorkload(scope, cluster, pod) == Member(true)
  {
    hide InWorkload;
    if i > 0 {
      assert FirstPossible(scope, cluster, items[1..], i - 1);
      ReplacementIsAMember(scope, cluster, items[1..], i - 1);
    }
  }

  // ----- the two sides agree -----

  /** The pod's ReplicaSet answers to something other than a Deployment, a pod, or itself. */
  predicate ForeignController(cluster: Cluster, pod: Pod) {
    var ref := ControllerOf(pod.owners);
    && ref.Some? && ref.value.kind == "ReplicaSet"
    && cluster(pod.namespaceName, ref.value.name).Found?
    && var top := ControllerOf(cluster(pod.namespaceName, ref.value.name).owners);
       && top.Some? && top.value.kind != "Deployment" && top.value.kind != "Pod"
       && (top.value.kind != "ReplicaSet" || top.value.name != ref.value.name)
  }

  /** The scope of the diagnosis opened for a pod. */
  function ScopeOf(
      cluster: Cluster, pod: Pod, signal: Signal, policy: string, signature: string, at: int, name: string,
      calls: int): Scope
    requires ResolveWorkload(cluster, pod).Resolved?
  {
    ScopeForDiagnosis(
      pod.namespaceName, name, SpecFor(pod, ResolveWorkload(cluster, pod).workload, signal, policy, signature, at), calls)
  }

  /** A diagnosed pod passes the membership test of its own diagnosis exactly when its ReplicaSet, if it
      has one, is not controlled by a foreign kind, and fails it otherwise: true in every cluster state. */
  lemma DiagnosedPodIsInScope(
      cluster: Cluster, pod: Pod, signal: Signal, policy: string, signature: string, at: int, name: string, calls: int)
    requires ResolveWorkload(cluster, pod).Resolved?
    ensures InWorkload(ScopeOf(cluster, pod, signal, policy, signature, at, name, calls), cluster, pod) ==
            Member(!ForeignController(cluster, pod))
  {
  }

  /** While the diagnosed pod lives, a call that names no pod always reads it, without that test; a call
      that names it reads it exactly when its ReplicaSet has no foreign controller, and is denied
      otherwise. */
  lemma DiagnosedPodIsServed(
      cluster: Cluster, pods: Pods, pod: Pod, signal: Signal, policy: string, signature: string, at: int, name: string,
      calls: int)
    requires ResolveWorkload(cluster, pod).Resolved? && pod.name != ""
    requires pods.get(pod.namespaceName, pod.name) == Live(pod)
    ensures var scope := ScopeOf(cluster, pod, signal, policy, signature, at, name, calls);
            && ResolvePod(scope, cluster, pods, "") == Serves(pod)
            && (ResolvePod(scope, cluster, pods, pod.name) == Serves(pod) <==> !ForeignController(cluster, pod))
            && (ResolvePod(scope, cluster, pods, pod.name).Denied? <==> ForeignController(cluster, pod))
  {
    DiagnosedPodIsInScope(cluster, pod, signal, policy, signature, at, name, calls);
    NamedPodIsChecked(ScopeOf(cluster, pod, signal, policy, signature, at, name, calls), cluster, pods, pod.name, pod);
    hide InWorkload, ForeignController, ResolveWorkload;
  }

  /** Such a controller exists outside the built-in kinds: the detector follows it, and the broker of
      every diagnosis opened for the pod refuses the pod by name. */
  lemma ForeignControllerIsRefused() returns (cluster: Cluster, pod: Pod)
    ensures ForeignController(cluster, pod) && ResolveWorkload(cluster, pod).Resolved?
    ensures forall signal, policy, signature, at, name, calls ::
              InWorkload(ScopeOf(cluster, pod, signal, policy, signature, at, name, calls), cluster, pod) == Member(false)
  {
    var top := OwnerReference("Rollout", "web", "u", true);
    cluster := (ns: string, name: string) => Found("r", [top]);
    var owner := OwnerReference("ReplicaSet", "web-1", "r", true);
    pod := Pod("ns", "web-1-x", "p", [owner], false, false, [], false, "", "", [], []);
    assert ControllerOf([top]) == Some(top) && ControllerOf([owner]) == Some(owner);
    assert ForeignController(cluster, pod);
    forall signal, policy, signature, at, name, calls
      ensures InWorkload(ScopeOf(cluster, pod, signal, policy, signature, at, name, calls), cluster, pod) == Member(false)
    {
      DiagnosedPodIsInScope(cluster, pod, signal, policy, signature, at, name, calls);
    }
  }

  /** The usual cluster: ReplicaSets answer to Deployments, and no pod or ReplicaSet to a pod. */
  ghost predicate BuiltInControllers(cluster: Cluster, pod: Pod) {
    var ref := ControllerOf(pod.owners);
    && (ref.Some? ==> ref.value.kind != "Pod")
    && forall name :: cluster(pod.namespaceName, name).Found? ==>
         var top := ControllerOf(cluster(pod.namespaceName, name).owners);
         top.Some? ==> top.value.kind == "Deployment"
  }

  /** In the usual cluster, every pod attributed to the diagnosed workload is accepted by name. */
  lemma SiblingsAreInScope(
      cluster: Cluster, pod: Pod, sibling: Pod, signal: Signal, policy: string, signature: string, at: int,
      name: string, calls: int)
    requires BuiltInControllers(cluster, pod) && BuiltInControllers(cluster, sibling)
    requires pod.namespaceName == sibling.namespaceName
    requires var w, v := ResolveWorkload(cluster, pod), ResolveWorkload(cluster, sibling);
             w.Resolved? && v.Resolved? && w.workload.kind == v.workload.kind && w.workload.name == v.workload.name
    ensures InWorkload(ScopeOf(cluster, pod, signal, policy, signature, at, name, calls), cluster, sibling) ==
            Member(true)
  {
  }

  /** For a Deployment the broker's test is exact in every cluster state: it accepts a pod of the
      namespace if and only if the detector would attribute that pod to the Deployment. */
  lemma DeploymentScopeIsExact(cluster: Cluster, scope: Scope, pod: Pod)
    requires scope.ownerKind == "Deployment"
    ensures InWorkload(scope, cluster, pod) == Member(true) <==>
            && pod.namespaceName == scope.namespaceName
            && ResolveWorkload(cluster, pod).Resolved?
            && ResolveWorkload(cluster, pod).workload.kind == "Deployment"
            && ResolveWorkload(cluster, pod).workload.name == scope.ownerName
  {
  }
}
