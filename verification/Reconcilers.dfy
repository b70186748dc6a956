/** The reconcile loops of internal/controller as they run: each reads an object, computes, and writes
    back through the API server, whose answers are arbitrary. What each one sends is what a step of the
    Pipeline protocol takes. */
module Reconcilers {
  import opened Wrappers
  import opened Kinds
  import opened Conversation
  import opened Detector
  import opened Evidence
  import opened Validation
  import opened Tools
  import opened Investigation
  import opened Api
  import opened Workload
  import opened InvestigatorController
  import opened Pipeline
  import opened PipelineRuns
  import RateLimit
  import Signature

  datatype Request =
    | Get(key: Key)
    | Create(key: Key, spec: Spec)
    | UpdateStatus(read: Object, status: Status)

  datatype Response = Found(current: Object) | NotFound | AlreadyExists | Conflict | Failure(reason: string)

  /** How a server answers the n-th request it is sent. */
  type Answers = (nat, Request) -> Response

  /** The API server as one reconciler sees it. Its answers depend on everything sent before, through
      the number of the request, so they stand for any behaviour of the other clients. */
  class Server {
    const answers: Answers
    var log: seq<Request>

    constructor (answers: Answers)
      ensures this.answers == answers && log == []
    {
      this.answers := answers;
      log := [];
    }

    method Send(r: Request) returns (a: Response)
      modifies this
      ensures log == old(log) + [r] && a == answers(old(|log|), r)
    {
      a := answers(|log|, r);
      log := log + [r];
    }
  }

  /** How one reconcile ends: for good, to be tried again later, or with an error, which is retried. */
  datatype Result = Done | Requeue | Errs(reason: string)

  function Reason(a: Response): string {
    match a
    case Found(_) => ""
    case NotFound => "not found"
    case AlreadyExists => "already exists"
    case Conflict => "the object has been modified"
    case Failure(reason) => reason
  }

  datatype Read<T> = Got(value: T) | ReadError(reason: string)

  // ----- the detector -----

  const SYSTEM_NAMESPACES: set<string> :=
    {"kube-system", "kube-public", "kube-node-lease", "local-path-storage", "kubecure-system"}

  datatype Policy = Policy(name: string, failureTypes: seq<FailureType>, maxPerHour: int)

  const DEFAULT_POLICY := "default"

  predicate IsFirstDefault(policies: seq<Policy>, i: int) {
    && 0 <= i < |policies| && policies[i].name == DEFAULT_POLICY
    && forall k :: 0 <= k < i ==> policies[k].name != DEFAULT_POLICY
  }

  /** A namespace without policies has not opted in; otherwise the first policy with the default name
      governs, or the first of all when none has it. */
  function Governing(policies: seq<Policy>): (p: Option<Policy>)
    ensures p.None? <==> policies == []
    ensures p.Some? && (forall i :: 0 <= i < |policies| ==> policies[i].name != DEFAULT_POLICY) ==>
              p.value == policies[0]
    ensures forall i :: IsFirstDefault(policies, i) ==> p == Some(policies[i])
  {
    if policies == [] then None
    else
      var named := FirstDefault(policies);
      if named.Some? then named else Some(policies[0])
  }

  function FirstDefault(policies: seq<Policy>): (p: Option<Policy>)
    ensures p.None? <==> forall i :: 0 <= i < |policies| ==> policies[i].name != DEFAULT_POLICY
    ensures forall i :: IsFirstDefault(policies, i) ==> p == Some(policies[i])
  {
    if policies == [] then None
    else if policies[0].name == DEFAULT_POLICY then Some(policies[0])
    else
      assert forall i :: 0 < i < |policies| ==> policies[i] == policies[1..][i - 1];
      FirstDefault(policies[1..])
  }

  predicate Covers(p: Policy, f: FailureType) {
    p.failureTypes == [] || f in p.failureTypes
  }

  /** A policy that lists no failures covers all of them. */
  lemma CoversMeans(p: Policy, f: FailureType)
    ensures Covers(p, f) <==> |p.failureTypes| == 0 || exists i :: 0 <= i < |p.failureTypes| && p.failureTypes[i] == f
  {
  }

  /** What one detection reads beside the diagnoses, and the clock readings it takes. */
  datatype Sighting = Sighting(
    namespaceName: string,
    pod: PodRead,
    cluster: Cluster,
    policies: Read<seq<Policy>>,
    listed: Read<seq<RateLimit.Record>>,
    now: int,
    checked: int,
    observedAt: int,
    stamp: int)

  /** How a detection ends before it looks for a diagnosis, if it does. */
  function EndsEarly(x: Sighting): Option<Result> {
    if x.namespaceName in SYSTEM_NAMESPACES || x.pod.Gone? then Some(Done)
    else if x.pod.PodError? then Some(Errs(x.pod.error))
    else
      var signal := Classify(x.pod.pod, x.now);
      if signal.None? then Some(Done)
      else if x.policies.ReadError? then Some(Errs(x.policies.reason))
      else
        var policy := Governing(x.policies.value);
        if policy.None? || !Covers(policy.value, signal.value.failureType) then Some(Done)
        else
          match ResolveWorkload(x.cluster, x.pod.pod)
          case ResolveError(error) => Some(Errs("resolving owning workload: " + error))
          case Resolved(_) => None
  }

  /** A failing pod, in a namespace that opted in, whose workload is known. */
  predicate Reportable(x: Sighting) {
    && x.namespaceName !in SYSTEM_NAMESPACES
    && x.pod.Live? && Classify(x.pod.pod, x.now).Some?
    && x.policies.Got? && Governing(x.policies.value).Some?
    && Covers(Governing(x.policies.value).value, Classify(x.pod.pod, x.now).value.failureType)
    && ResolveWorkload(x.cluster, x.pod.pod).Resolved?
  }

  /** A detection fails early exactly with the error of the first read it needed that failed. */
  lemma EarlyErrors(x: Sighting, reason: string)
    ensures EndsEarly(x) != Some(Requeue)
    ensures EndsEarly(x) == Some(Errs(reason)) <==>
            && x.namespaceName !in SYSTEM_NAMESPACES
            && (|| x.pod == PodError(reason)
                || (x.pod.Live? && Classify(x.pod.pod, x.now).Some?
                    && (|| x.policies == ReadError(reason)
                        || (x.policies.Got? && Governing(x.policies.value).Some?
                            && Covers(Governing(x.policies.value).value, Classify(x.pod.pod, x.now).value.failureType)
                            && ResolveWorkload(x.cluster, x.pod.pod).ResolveError?
                            && reason == "resolving owning workload: " + ResolveWorkload(x.cluster, x.pod.pod).error))))
  {
    hide Classify, ResolveWorkload, Governing, Covers;
  }

  ghost predicate HexHash(hash: string -> string) {
    forall s :: |hash(s)| >= Signature.SIGNATURE_LENGTH && Signature.Hex(hash(s)[..Signature.SIGNATURE_LENGTH])
  }

  predicate Within(items: seq<RateLimit.Record>, limit: int, checked: int) {
    limit <= 0 || RateLimit.RecentCount(items, |items|, checked - RateLimit.HOUR) < limit
  }

  /** A name not found is created, once, if the hourly limit allows, and then marked as detected. */
  predicate DetectorSent(
      log: seq<Request>, answers: Answers, base: nat, limit: int, x: Sighting, key: Key, spec: Spec, result: Result)
    requires base <= |log|
  {
    var existing := answers(base, Get(key));
    if !existing.NotFound? then
      log[base..] == [Get(key)] && result == (if existing.Found? then Done else Errs(Reason(existing)))
    else if limit > 0 && x.listed.ReadError? then
      log[base..] == [Get(key)] && result == Errs(x.listed.reason)
    else if limit > 0 && !Within(x.listed.value, limit, x.checked) then
      log[base..] == [Get(key)] && result == Requeue
    else CreateSent(log, answers, base, x, key, spec, result)
  }

  predicate CreateSent(
      log: seq<Request>, answers: Answers, base: nat, x: Sighting, key: Key, spec: Spec, result: Result)
    requires base <= |log|
  {
    match answers(base + 1, Request.Create(key, spec))
    case Found(made) =>
      var mark := UpdateStatus(made, DetectedStatus(made.status, x.stamp));
      var written := answers(base + 2, mark);
      && log[base..] == [Get(key), Request.Create(key, spec), mark]
      && result == (if written.Found? then Done else Errs(Reason(written)))
    case other =>
      && log[base..] == [Get(key), Request.Create(key, spec)]
      && result == (if other.AlreadyExists? then Done else Errs(Reason(other)))
  }

  class PodReconciler {
    const server: Server
    const hash: string -> string

    constructor (server: Server, hash: string -> string)
      ensures this.server == server && this.hash == hash
    {
      this.server := server;
      this.hash := hash;
    }

    /** Only a reportable failure reaches the server, under the name of that failure. */
    method Reconcile(x: Sighting) returns (result: Result, ghost key: Key, ghost spec: Spec)
      requires HexHash(hash)
      modifies server
      ensures old(server.log) <= server.log
      ensures EndsEarly(x).Some? <==> !Reportable(x)
      ensures !Reportable(x) ==> server.log == old(server.log) && EndsEarly(x) == Some(result)
      ensures Reportable(x) ==>
                var policy := Governing(x.policies.value).value;
                && Detects(hash, x.cluster, x.pod.pod, x.now, policy.name, x.observedAt, key, spec)
                && DetectorSent(server.log, server.answers, old(|server.log|), policy.maxPerHour, x, key, spec, result)
    {
      hide Classify, ResolveWorkload, DetectorSent, Detects, Governing, Covers;
      result := Done;
      key, spec := *, *;
      if x.namespaceName in SYSTEM_NAMESPACES || x.pod.Gone? {
        return;
      }
      if x.pod.PodError? {
        return Errs(x.pod.error), key, spec;
      }
      var pod := x.pod.pod;
      var signal := Classify(pod, x.now);
      if signal.None? {
        return;
      }
      if x.policies.ReadError? {
        return Errs(x.policies.reason), key, spec;
      }
      var policy := Governing(x.policies.value);
      if policy.None? || !Covers(policy.value, signal.value.failureType) {
        return;
      }
      var resolved := ResolveWorkload(x.cluster, pod);
      if resolved.ResolveError? {
        return Errs("resolving owning workload: " + resolved.error), key, spec;
      }
      var k, sp := NameFailure(x, signal.value, resolved.workload, policy.value.name);
      key, spec := k, sp;
      result := OpenDiagnosis(x, policy.value.maxPerHour, k, sp);
    }

    /** Losing a race to create the name is not an error; a full hour is tried again later. */
    method OpenDiagnosis(x: Sighting, limit: int, key: Key, spec: Spec) returns (result: Result)
      modifies server
      ensures old(server.log) <= server.log
      ensures DetectorSent(server.log, server.answers, old(|server.log|), limit, x, key, spec, result)
    {
      hide DetectedStatus, RateLimit.RecentCount, Reason;
      var existing := server.Send(Get(key));
      if !existing.NotFound? {
        return if existing.Found? then Done else Errs(Reason(existing));
      }
      if limit > 0 {
        if x.listed.ReadError? {
          return Errs(x.listed.reason);
        }
        var within := RateLimit.WithinRateLimit(x.listed.value, limit, x.checked);
        if !within {
          return Requeue;
        }
      }
      var made := server.Send(Request.Create(key, spec));
      if !made.Found? {
        return if made.AlreadyExists? then Done else Errs(Reason(made));
      }
      var written := server.Send(UpdateStatus(made.current, DetectedStatus(made.current.status, x.stamp)));
      return if written.Found? then Done else Errs(Reason(written));
    }

    method NameFailure(x: Sighting, signal: Signal, workload: WorkloadRef, policy: string)
      returns (key: Key, spec: Spec)
      requires HexHash(hash) && x.pod.Live?
      requires Classify(x.pod.pod, x.now) == Some(signal)
      requires ResolveWorkload(x.cluster, x.pod.pod) == Resolved(workload)
      ensures Detects(hash, x.cluster, x.pod.pod, x.now, policy, x.observedAt, key, spec)
    {
      var pod := x.pod.pod;
      var hashed :=
        Signature.Key(pod.namespaceName, workload.kind, workload.name, signal.container, signal.failureType);
      var signature := Signature.Of(hash, hashed);
      key := Key(pod.namespaceName, Signature.DiagnosisName(workload.name, signal.failureType, signature));
      spec := SpecFor(pod, workload, signal, policy, signature, x.observedAt);
      hide Classify, ResolveWorkload, Signature.Key, Signature.DiagnosisName, Signature.Hex;
    }
  }

  // ----- the evidence controller -----

  /** The evidence is what was collected of the instance that failed, or says that instance is gone. */
  ghost predicate EvidenceOf(spec: Spec, read: PodRead, source: Source, facts: ContainerFacts, ev: Evidence) {
    if read.Live? && read.pod.uid == spec.target.uid then
      && CollectedFor(spec.failureType, source, ev)
      && ev.facts == facts && ev.redactedFields == Redactions(spec.failureType, source, |ALL_KINDS|)
    else !read.PodError? && ev == WITHOUT_POD
  }

  /** One write, only onto a version read as Detected whose pod could be looked up. */
  ghost predicate EvidenceSent(
      log: seq<Request>, answers: Answers, base: nat, key: Key, pods: Pods, source: Source, facts: ContainerFacts,
      stamp: int, ev: Evidence, result: Result)
    requires base <= |log|
  {
    var read := answers(base, Get(key));
    if read.Found? && read.current.status.phase.Detected? && !TargetOf(read.current, pods).PodError? then
      var write := UpdateStatus(read.current, EnrichedStatus(read.current.status, stamp, ev));
      && EvidenceOf(read.current.spec, TargetOf(read.current, pods), source, facts, ev)
      && log[base..] == [Get(key), write]
      && result == (if answers(base + 1, write).Found? then Done else Errs(Reason(answers(base + 1, write))))
    else
      && log[base..] == [Get(key)]
      && result == if read.Found? && read.current.status.phase.Detected? then Errs(TargetOf(read.current, pods).error)
                   else if read.Found? || read.NotFound? then Done else Errs(Reason(read))
  }

  /** The two controllers agree on which pod failed: while the pod a diagnosis was opened for is the one
      found under its name, the evidence is collected from it and never says that it is gone; once another
      or none is found there, that is all the evidence says. */
  lemma EvidenceOfDetectedPod(
      hash: string -> string, cluster: Cluster, pod: Pod, now: int, policy: string, at: int, o: Object, pods: Pods,
      source: Source, facts: ContainerFacts, ev: Evidence)
    requires Detects(hash, cluster, pod, now, policy, at, o.key, o.spec)
    requires EvidenceOf(o.spec, TargetOf(o, pods), source, facts, ev)
    ensures TargetOf(o, pods) == pods.get(pod.namespaceName, pod.name)
    ensures pods.get(pod.namespaceName, pod.name) == Live(pod) ==>
              CollectedFor(o.spec.failureType, source, ev) && ev != WITHOUT_POD
    ensures pods.get(pod.namespaceName, pod.name).Gone? ==> ev == WITHOUT_POD
    ensures pods.get(pod.namespaceName, pod.name).Live? && pods.get(pod.namespaceName, pod.name).pod.uid != pod.uid ==>
              ev == WITHOUT_POD
  {
    DetectionRecords(hash, cluster, pod, now, policy, at, o.key, o.spec);
    hide Detects, WellGathered, ItemFor;
    assert |WITHOUT_POD.items| == 1;
  }

  function TargetOf(o: Object, pods: Pods): PodRead {
    pods.get(o.key.namespaceName, o.spec.target.name)
  }

  class EvidenceReconciler {
    const server: Server

    constructor (server: Server)
      ensures this.server == server
    {
      this.server := server;
    }

    method Reconcile(key: Key, pods: Pods, source: Source, facts: ContainerFacts, stamp: int)
      returns (result: Result, ghost ev: Evidence)
      modifies server
      ensures old(server.log) <= server.log
      ensures EvidenceSent(server.log, server.answers, old(|server.log|), key, pods, source, facts, stamp, ev, result)
    {
      hide CollectedFor, Reason;
      ev := WITHOUT_POD;
      var read := server.Send(Get(key));
      if !read.Found? {
        return if read.NotFound? then Done else Errs(Reason(read)), ev;
      }
      var diagnosis := read.current;
      if !diagnosis.status.phase.Detected? {
        return Done, ev;
      }
      var pod := pods.get(diagnosis.key.namespaceName, diagnosis.spec.target.name);
      if pod.PodError? {
        return Errs(pod.error), ev;
      }
      var gathered: Evidence;
      if pod.Gone? || pod.pod.uid != diagnosis.spec.target.uid {
        gathered := WITHOUT_POD;
      } else {
        gathered := Collect(diagnosis.spec.failureType, source, facts);
      }
      ev := gathered;
      var status := diagnosis.status;
      status := status.(evidence := Some(gathered));
      status := status.(phase := Phase.Enriched);
      status := status.(timings := status.timings.(enrichedAt := Some(stamp)));
      var written := server.Send(UpdateStatus(diagnosis, status));
      return if written.Found? then Done else Errs(Reason(written)), ev;
    }
  }

  // ----- the investigator's conditional write -----

  const WRITE_ATTEMPTS := 5

  /** What is being recorded, and the clock at each attempt. */
  datatype Recordable = Recordable(
    key: Key, record: InvestigationRecord, hypotheses: seq<Hypothesis>, stamps: nat -> int)

  function Stamped(r: Recordable, latest: Object, i: nat): Request {
    UpdateStatus(latest, HypothesizedStatus(latest.status, r.stamps(i), r.record, r.hypotheses))
  }

  /** The i-th attempt read an enriched version and its write met a conflict. */
  predicate MetConflict(answers: Answers, base: nat, r: Recordable, i: nat) {
    var read := answers(base + 2 * i, Get(r.key));
    && read.Found? && read.current.status.phase.Enriched?
    && answers(base + 2 * i + 1, Stamped(r, read.current, i)) == Conflict
  }

  /** The first n attempts, each a read and a write made of it. */
  predicate Attempted(log: seq<Request>, answers: Answers, base: nat, r: Recordable, n: nat) {
    && |log| >= base + 2 * n
    && forall i :: 0 <= i < n ==>
         && MetConflict(answers, base, r, i)
         && log[base + 2 * i] == Get(r.key)
         && log[base + 2 * i + 1] == Stamped(r, answers(base + 2 * i, Get(r.key)).current, i)
  }

  /** The last attempt: nothing more is read or written, and a write is made only onto an enriched
      version and only with findings computed before any attempt. */
  predicate Settled(log: seq<Request>, answers: Answers, base: nat, r: Recordable, n: nat, err: Option<string>) {
    if n == WRITE_ATTEMPTS then |log| == base + 2 * n && err == Some(Reason(Conflict))
    else
      var read := answers(base + 2 * n, Get(r.key));
      && n < WRITE_ATTEMPTS && |log| > base + 2 * n && log[base + 2 * n] == Get(r.key)
      && if read.Found? && read.current.status.phase.Enriched? then
           var answer := answers(base + 2 * n + 1, Stamped(r, read.current, n));
           && |log| == base + 2 * n + 2 && log[base + 2 * n + 1] == Stamped(r, read.current, n)
           && answer != Conflict && err == (if answer.Found? then None else Some(Reason(answer)))
         else |log| == base + 2 * n + 1 && err == if read.Found? then None else Some(Reason(read))
  }

  class InvestigatorReconciler {
    const server: Server

    constructor (server: Server)
      ensures this.server == server
    {
      this.server := server;
    }

    /** One read of the latest version and, if it still awaits findings, one write of it. */
    method Attempt(r: Recordable, i: nat) returns (err: Option<string>, conflict: bool)
      modifies server
      ensures var base := old(|server.log|);
              var read := server.answers(base, Get(r.key));
              if read.Found? && read.current.status.phase.Enriched? then
                var write := Stamped(r, read.current, i);
                && server.log == old(server.log) + [Get(r.key), write]
                && (conflict <==> server.answers(base + 1, write) == Conflict)
                && err == (if server.answers(base + 1, write).Found? then None
                           else Some(Reason(server.answers(base + 1, write))))
              else
                && server.log == old(server.log) + [Get(r.key)] && !conflict
                && err == if read.Found? then None else Some(Reason(read))
    {
      var latest := server.Send(Get(r.key));
      if !latest.Found? {
        return Some(Reason(latest)), false;
      }
      if !latest.current.status.phase.Enriched? {
        return None, false;
      }
      var status := latest.current.status;
      status := status.(investigation := Some(r.record), hypotheses := r.hypotheses);
      status := status.(phase := Phase.Hypothesized);
      status := status.(timings := status.timings.(hypothesizedAt := Some(r.stamps(i))));
      var answer := server.Send(UpdateStatus(latest.current, status));
      return if answer.Found? then None else Some(Reason(answer)), answer == Conflict;
    }

    /** Retries on conflict, and on nothing else, against a fresh read each time. */
    method Record(r: Recordable) returns (err: Option<string>, ghost conflicts: nat)
      modifies server
      ensures old(server.log) <= server.log
      ensures Attempted(server.log, server.answers, old(|server.log|), r, conflicts)
      ensures Settled(server.log, server.answers, old(|server.log|), r, conflicts, err)
    {
      hide Stamped, Reason;
      ghost var base := |server.log|;
      conflicts := 0;
      for i := 0 to WRITE_ATTEMPTS
        invariant conflicts == i && old(server.log) <= server.log
        invariant |server.log| == base + 2 * i && Attempted(server.log, server.answers, base, r, i)
      {
        var conflict;
        err, conflict := Attempt(r, i);
        if !conflict {
          return;
        }
        conflicts := conflicts + 1;
      }
      return Some(Reason(Conflict)), conflicts;
    }

    /** Nothing but the first read is sent exactly when the diagnosis does not call for an investigation
        or the model failed; otherwise what the investigation found is recorded. */
    method Reconcile(
        key: Key, policies: (string, string) -> AgentPolicy, pricing: Pricing, model: ScriptedModel?,
        registry: Registry, expired: nat -> bool, stamps: nat -> int)
      returns (result: Result, ghost f: Findings, ghost calls: seq<AuditRecord>, ghost conflicts: nat)
      modifies server, model
      ensures old(server.log) <= server.log
      ensures var asked := old(if model != null then model.requests else []);
              var failure := if model == null then None else ModelFailure(model.script, model.requests, |asked|);
              var read := server.answers(old(|server.log|), Get(key));
              && InvestigatorSent(server.log, server.answers, old(|server.log|), key, policies, pricing, model != null,
                                  failure, stamps, f, calls, conflicts, result)
              && if CallsForInvestigation(read, policies, model != null) then
                   Ran(model, asked, registry, InputOf(read.current, policies, pricing), expired, f, failure, calls)
                 else model != null ==> model.requests == asked
    {
      hide Investigated, RecordOf, Attempted, Settled, Ran, ModelFailure, InputFor, Reason;
      f, calls, conflicts := *, *, 0;
      var read := server.Send(Get(key));
      if !read.Found? {
        return if read.NotFound? then Done else Errs(Reason(read)), f, calls, conflicts;
      }
      var d := read.current;
      if !d.status.phase.Enriched? {
        return Done, f, calls, conflicts;
      }
      var policy := policies(d.key.namespaceName, d.spec.policyRef);
      if !policy.Governs? {
        return if policy.NoPolicy? then Done else Errs(policy.reason), f, calls, conflicts;
      }
      if !policy.enabled || model == null {
        return Done, f, calls, conflicts;
      }
      var found, failure, audit := Investigate(
        d.key.namespaceName, d.spec, d.status.evidence, policy.config, pricing, model, registry, expired);
      f, calls := found, audit;
      if failure.Some? {
        return Errs("investigating " + d.key.name + ": " + failure.value), f, calls, conflicts;
      }
      var err;
      err, conflicts := Record(Recordable(key, RecordOf(found, audit), found.hypotheses, stamps));
      result := if err.None? then Done else Errs(err.value);
    }
  }

  /** The policy a diagnosis refers to, as far as its investigation depends on it. */
  datatype AgentPolicy = Governs(enabled: bool, config: AgentConfig) | NoPolicy | PolicyError(reason: string)

  function PolicyOf(d: Object, policies: (string, string) -> AgentPolicy): AgentPolicy {
    policies(d.key.namespaceName, d.spec.policyRef)
  }

  /** An enriched diagnosis whose policy enables the agent, with a model to ask. */
  predicate CallsForInvestigation(read: Response, policies: (string, string) -> AgentPolicy, hasModel: bool) {
    && read.Found? && read.current.status.phase.Enriched?
    && PolicyOf(read.current, policies).Governs? && PolicyOf(read.current, policies).enabled && hasModel
  }

  /** How a reconcile that investigates nothing ends: with the error of a read that failed, if one did. */
  function Uncalled(read: Response, policies: (string, string) -> AgentPolicy): Result {
    if read.Found? then
      if read.current.status.phase.Enriched? && PolicyOf(read.current, policies).PolicyError? then
        Errs(PolicyOf(read.current, policies).reason)
      else Done
    else if read.NotFound? then Done
    else Errs(Reason(read))
  }

  function InputOf(d: Object, policies: (string, string) -> AgentPolicy, pricing: Pricing): Input
    requires PolicyOf(d, policies).Governs?
  {
    InputFor(d.key.namespaceName, d.spec, d.status.evidence, PolicyOf(d, policies).config, pricing)
  }

  /** Nothing but the first read, unless an investigation was called for and did not fail. */
  ghost predicate InvestigatorSent(
      log: seq<Request>, answers: Answers, base: nat, key: Key, policies: (string, string) -> AgentPolicy,
      pricing: Pricing, hasModel: bool, failure: Option<string>, stamps: nat -> int, f: Findings,
      calls: seq<AuditRecord>, conflicts: nat, result: Result)
    requires base <= |log|
  {
    var read := answers(base, Get(key));
    if !CallsForInvestigation(read, policies, hasModel) then
      log[base..] == [Get(key)] && result == Uncalled(read, policies)
    else if failure.Some? then
      && log[base..] == [Get(key)]
      && result == Errs("investigating " + read.current.key.name + ": " + failure.value)
    else FindingsSent(log, answers, base, key, read.current, policies, pricing, stamps, f, calls, conflicts, result)
  }

  /** The findings are of the version first read, under its policy, and were recorded as told. */
  ghost predicate FindingsSent(
      log: seq<Request>, answers: Answers, base: nat, key: Key, d: Object,
      policies: (string, string) -> AgentPolicy, pricing: Pricing, stamps: nat -> int, f: Findings,
      calls: seq<AuditRecord>, conflicts: nat, result: Result)
    requires PolicyOf(d, policies).Governs?
  {
    var r := Recordable(key, RecordOf(f, calls), f.hypotheses, stamps);
    && Investigated(d.key.namespaceName, d.spec, d.status.evidence, PolicyOf(d, policies).config, pricing, f, calls)
    && |log| > base && log[base] == Get(key)
    && Attempted(log, answers, base + 1, r, conflicts)
    && exists err :: Settled(log, answers, base + 1, r, conflicts, err)
                     && result == (if err.None? then Done else Errs(err.value))
  }

  // ----- the server -----

  /** What the API server does with a request: creates a free name, writes onto the version named, and
      otherwise changes nothing. */
  function Served(s: State, r: Request): State {
    match r
    case Get(_) => s
    case Create(key, spec) =>
      if key in s.objects then s
      else Stored(s.(nextUid := s.nextUid + 1), Object(key, s.nextVersion, s.nextUid, spec, EMPTY_STATUS))
    case UpdateStatus(read, status) => if Current(s, read) then Stored(s, Written(s, read, status)) else s
  }

  /** Equal in everything the server holds. */
  ghost predicate SameServer(s: State, t: State) {
    s.objects == t.objects && s.nextVersion == t.nextVersion && s.nextUid == t.nextUid && s.history == t.history
  }
}
