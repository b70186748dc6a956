/** internal/detector/detector.go: classifying a pod's failure, as a pure function of the pod and the
    clock. Times and durations are in nanoseconds. */
module Detector {
  import opened Wrappers
  import opened Kinds

  const SECOND := 1_000_000_000
  const UNSCHEDULABLE_GRACE := 30 * SECOND
  const PROBE_GRACE_BUFFER := 15 * SECOND
  const DEFAULT_PROBE_PERIOD := 10 * SECOND
  const DEFAULT_PROBE_FAILURE_THRESHOLD := 3

  datatype Waiting = Waiting(reason: string, message: string)
  datatype Terminated = Terminated(reason: string, message: string, exitCode: int)

  datatype ContainerStatus = ContainerStatus(
    name: string,
    ready: bool,
    restartCount: int,
    waiting: Option<Waiting>,
    runningSince: Option<int>,
    terminated: Option<Terminated>,
    lastTerminated: Option<Terminated>)

  datatype Condition = Condition(kind: string, isFalse: bool, reason: string, message: string, since: int)

  datatype Probe = Probe(initialDelaySeconds: int, periodSeconds: int, failureThreshold: int)
  datatype ContainerSpec = ContainerSpec(name: string, readiness: Option<Probe>)

  datatype OwnerReference = OwnerReference(kind: string, name: string, uid: string, controller: bool)

  datatype Pod = Pod(
    namespaceName: string,
    name: string,
    uid: string,
    owners: seq<OwnerReference>,
    deleting: bool,
    restartNever: bool,
    containers: seq<ContainerSpec>,
    pending: bool,
    reason: string,
    message: string,
    conditions: seq<Condition>,
    statuses: seq<ContainerStatus>)

  datatype Signal = Signal(
    failureType: FailureType,
    container: string,
    reason: string,
    observedReason: string,
    message: string,
    exitCode: Option<int>,
    restartCount: int)

  // ----- classification -----

  function Classify(pod: Pod, now: int): Option<Signal> {
    if pod.deleting then None
    else if pod.reason == "Evicted" then Some(Signal(Evicted, "", pod.reason, "", pod.message, None, 0))
    else
      var unschedulable := ClassifyUnschedulable(pod, pod.conditions, now);
      if unschedulable.Some? then unschedulable else ClassifyContainers(pod, pod.statuses, now)
  }

  /** Only the first condition that reports the scheduler's verdict is consulted. */
  function ClassifyUnschedulable(pod: Pod, conditions: seq<Condition>, now: int): Option<Signal> {
    if !pod.pending || conditions == [] then None
    else
      var c := conditions[0];
      if c.kind != "PodScheduled" || !c.isFalse || c.reason != "Unschedulable" then
        ClassifyUnschedulable(pod, conditions[1..], now)
      else if now - c.since < UNSCHEDULABLE_GRACE then None
      else Some(Signal(Unschedulable, "", c.reason, "", c.message, None, 0))
  }

  function ClassifyContainers(pod: Pod, statuses: seq<ContainerStatus>, now: int): Option<Signal> {
    if statuses == [] then None
    else
      var s := ClassifyContainer(pod, statuses[0], now);
      if s.Some? then s else ClassifyContainers(pod, statuses[1..], now)
  }

  function ClassifyContainer(pod: Pod, cs: ContainerStatus, now: int): Option<Signal> {
    if cs.lastTerminated.Some? && cs.lastTerminated.value.reason == "OOMKilled" then
      var term := cs.lastTerminated.value;
      Some(Signal(OOMKilled, cs.name, term.reason, CurrentReason(cs), term.message, Some(term.exitCode),
                  cs.restartCount))
    else if cs.terminated.Some? && cs.terminated.value.reason == "OOMKilled" then
      var term := cs.terminated.value;
      Some(Signal(OOMKilled, cs.name, term.reason, "", term.message, Some(term.exitCode), cs.restartCount))
    else if cs.waiting.Some? && WaitingType(cs.waiting.value.reason).Some? then
      Some(Signal(WaitingType(cs.waiting.value.reason).value, cs.name, cs.waiting.value.reason, "",
                  cs.waiting.value.message,
                  if cs.lastTerminated.Some? then Some(cs.lastTerminated.value.exitCode) else None,
                  cs.restartCount))
    else if cs.terminated.Some? && cs.terminated.value.exitCode != 0 && !pod.restartNever then
      var term := cs.terminated.value;
      Some(Signal(CrashLoopBackOff, cs.name, term.reason, "", term.message, Some(term.exitCode), cs.restartCount))
    else ClassifyProbeFailure(pod, cs, now)
  }

  function ClassifyProbeFailure(pod: Pod, cs: ContainerStatus, now: int): Option<Signal> {
    if cs.runningSince.None? || cs.ready then None
    else
      var grace := ReadinessBudget(pod.containers, cs.name);
      if grace.None? || now - cs.runningSince.value < grace.value then None
      else Some(Signal(ProbeFailure, cs.name, "ReadinessProbeFailed", "",
                       "container has been running past its declared readiness budget without becoming ready",
                       None, cs.restartCount))
  }

  function ReadinessBudget(containers: seq<ContainerSpec>, name: string): Option<int> {
    if containers == [] then None
    else if containers[0].name != name then ReadinessBudget(containers[1..], name)
    else if containers[0].readiness.None? then None
    else
      var probe := containers[0].readiness.value;
      var period := if probe.periodSeconds <= 0 then DEFAULT_PROBE_PERIOD else probe.periodSeconds * SECOND;
      var threshold :=
        if probe.failureThreshold <= 0 then DEFAULT_PROBE_FAILURE_THRESHOLD else probe.failureThreshold;
      Some(probe.initialDelaySeconds * SECOND + threshold * period + PROBE_GRACE_BUFFER)
  }

  function WaitingType(reason: string): Option<FailureType> {
    if reason == "CrashLoopBackOff" then Some(CrashLoopBackOff)
    else if reason in {"ImagePullBackOff", "ErrImagePull", "InvalidImageName", "ImageInspectError", "ErrImageNeverPull"}
    then Some(ImagePullBackOff)
    else if reason == "CreateContainerConfigError" then Some(CreateContainerConfigError)
    else if reason == "RunContainerError" || reason == "CreateContainerError" then Some(RunContainerError)
    else None
  }

  function CurrentReason(cs: ContainerStatus): string {
    if cs.waiting.Some? then cs.waiting.value.reason
    else if cs.terminated.Some? then cs.terminated.value.reason
    else ""
  }

  // ----- the checks taken one by one -----

  /** Check 0 is eviction, check 1 scheduling, check 2 + i container i: each on its own, whatever the
      others say. */
  function CheckAt(pod: Pod, position: nat, now: int): Option<Signal> {
    if position == 0 then
      if pod.reason == "Evicted" then Some(Signal(Evicted, "", pod.reason, "", pod.message, None, 0)) else None
    else if position == 1 then ClassifyUnschedulable(pod, pod.conditions, now)
    else if position - 2 < |pod.statuses| then ClassifyContainer(pod, pod.statuses[position - 2], now)
    else None
  }

  ghost predicate FiresFirst(pod: Pod, position: nat, now: int) {
    && CheckAt(pod, position, now).Some?
    && forall p :: 0 <= p < position ==> CheckAt(pod, p, now).None?
  }

  lemma {:induction false} ContainersFirst(pod: Pod, i: nat, now: int)
    requires i <= |pod.statuses|
    ensures var s := ClassifyContainers(pod, pod.statuses[i..], now);
            && (s.None? ==> forall k :: i <= k < |pod.statuses| ==> ClassifyContainer(pod, pod.statuses[k], now).None?)
            && (s.Some? ==> exists k :: i <= k < |pod.statuses| && s == ClassifyContainer(pod, pod.statuses[k], now)
                              && forall j :: i <= j < k ==> ClassifyContainer(pod, pod.statuses[j], now).None?)
    decreases |pod.statuses| - i
  {
    hide ClassifyContainer;
    if i < |pod.statuses| {
      ContainersFirst(pod, i + 1, now);
      assert pod.statuses[i..][1..] == pod.statuses[i + 1..];
    }
  }

  /** A pod that is not being deleted is classified by the first check that fires, and only then. */
  lemma ClassifiedByFirst(pod: Pod, now: int)
    ensures pod.deleting ==> Classify(pod, now).None?
    ensures !pod.deleting ==>
              match Classify(pod, now)
              case None => forall p :: CheckAt(pod, p, now).None?
              case Some(s) => exists p :: FiresFirst(pod, p, now) && CheckAt(pod, p, now) == Some(s)
  {
    ContainersFirst(pod, 0, now);
    assert pod.statuses[0..] == pod.statuses;
    hide ClassifyContainer, ClassifyContainers, ClassifyUnschedulable;
    if CheckAt(pod, 0, now).Some? {
      assert FiresFirst(pod, 0, now);
    } else if CheckAt(pod, 1, now).Some? {
      assert FiresFirst(pod, 1, now);
    } else if Classify(pod, now).Some? {
      var k :| 0 <= k < |pod.statuses| && Classify(pod, now) == ClassifyContainer(pod, pod.statuses[k], now)
               && forall j :: 0 <= j < k ==> ClassifyContainer(pod, pod.statuses[j], now).None?;
      assert CheckAt(pod, k + 2, now) == ClassifyContainer(pod, pod.statuses[k], now);
      assert FiresFirst(pod, k + 2, now);
    }
  }

  lemma FirstIsUnique(pod: Pod, p: nat, q: nat, now: int)
    requires FiresFirst(pod, p, now) && FiresFirst(pod, q, now)
    ensures p == q
  {
    hide CheckAt;
  }

  // ----- time only ever adds failures -----

  lemma {:induction false} UnschedulableStays(pod: Pod, conditions: seq<Condition>, t: int, later: int)
    requires t <= later && ClassifyUnschedulable(pod, conditions, t).Some?
    ensures ClassifyUnschedulable(pod, conditions, later) == ClassifyUnschedulable(pod, conditions, t)
  {
    var c := conditions[0];
    if c.kind != "PodScheduled" || !c.isFalse || c.reason != "Unschedulable" {
      UnschedulableStays(pod, conditions[1..], t, later);
    }
  }

  /** Each check, once it fires, fires for ever and with the same signal. */
  lemma CheckStays(pod: Pod, p: nat, t: int, later: int)
    requires t <= later && CheckAt(pod, p, t).Some?
    ensures CheckAt(pod, p, later) == CheckAt(pod, p, t)
  {
    hide ReadinessBudget, WaitingType;
    if p == 1 {
      UnschedulableStays(pod, pod.conditions, t, later);
    }
  }

  /** For an unchanged pod, a failure stays a failure; the check that names it only moves towards more
      specific causes, and while it does not move the signal is identical. */
  lemma FailingPodsStayFailing(pod: Pod, t: int, later: int)
    requires t <= later && Classify(pod, t).Some?
    ensures Classify(pod, later).Some?
    ensures forall p, q :: FiresFirst(pod, p, t) && FiresFirst(pod, q, later) ==>
              q <= p && (q == p ==> Classify(pod, later) == Classify(pod, t))
  {
    ClassifiedByFirst(pod, t);
    ClassifiedByFirst(pod, later);
    hide Classify, CheckAt;
    var p :| FiresFirst(pod, p, t) && CheckAt(pod, p, t) == Classify(pod, t);
    CheckStays(pod, p, t, later);
    var q :| FiresFirst(pod, q, later) && CheckAt(pod, q, later) == Classify(pod, later);
    forall p', q' | FiresFirst(pod, p', t) && FiresFirst(pod, q', later) ensures p' == p && q' == q {
      FirstIsUnique(pod, p', p, t);
      FirstIsUnique(pod, q', q, later);
    }
  }

  // ----- and only for a bounded time -----

  function Max(a: int, b: int): int {
    if a >= b then a else b
  }

  function ConditionsSettled(conditions: seq<Condition>): int {
    if conditions == [] then 0 else Max(conditions[0].since + UNSCHEDULABLE_GRACE, ConditionsSettled(conditions[1..]))
  }

  function StatusSettled(pod: Pod, cs: ContainerStatus): int {
    var grace := ReadinessBudget(pod.containers, cs.name);
    if cs.runningSince.Some? && grace.Some? then cs.runningSince.value + grace.value else 0
  }

  function StatusesSettled(pod: Pod, n: nat): int
    requires n <= |pod.statuses|
  {
    if n == 0 then 0 else Max(StatusSettled(pod, pod.statuses[n - 1]), StatusesSettled(pod, n - 1))
  }

  /** The last deadline of any grace period the pod declares. */
  function Deadline(pod: Pod): int {
    Max(ConditionsSettled(pod.conditions), StatusesSettled(pod, |pod.statuses|))
  }

  lemma {:induction false} UnschedulableSettles(pod: Pod, conditions: seq<Condition>, t: int, later: int)
    requires ConditionsSettled(conditions) <= t <= later
    ensures ClassifyUnschedulable(pod, conditions, later) == ClassifyUnschedulable(pod, conditions, t)
  {
    if conditions != [] {
      UnschedulableSettles(pod, conditions[1..], t, later);
    }
  }

  lemma {:induction false} StatusesSettledBound(pod: Pod, n: nat, i: nat)
    requires i < n <= |pod.statuses|
    ensures StatusSettled(pod, pod.statuses[i]) <= StatusesSettled(pod, n)
  {
    if i < n - 1 {
      StatusesSettledBound(pod, n - 1, i);
    }
  }

  lemma CheckSettles(pod: Pod, p: nat, t: int, later: int)
    requires Deadline(pod) <= t <= later
    ensures CheckAt(pod, p, later) == CheckAt(pod, p, t)
  {
    UnschedulableSettles(pod, pod.conditions, t, later);
    if p >= 2 && p - 2 < |pod.statuses| {
      StatusesSettledBound(pod, |pod.statuses|, p - 2);
    }
    hide ReadinessBudget, WaitingType, ConditionsSettled, StatusesSettled, ClassifyUnschedulable;
  }

  /** Past that deadline an unchanged pod is classified the same for ever, failing or not. */
  lemma ClassificationSettles(pod: Pod, t: int, later: int)
    requires Deadline(pod) <= t <= later
    ensures Classify(pod, later) == Classify(pod, t)
  {
    if !pod.deleting {
      ClassifiedByFirst(pod, t);
      ClassifiedByFirst(pod, later);
      hide Classify, CheckAt, Deadline;
      forall p: nat ensures CheckAt(pod, p, later) == CheckAt(pod, p, t) {
        CheckSettles(pod, p, t, later);
      }
      if Classify(pod, t).Some? {
        var p :| FiresFirst(pod, p, t) && CheckAt(pod, p, t) == Classify(pod, t);
        assert FiresFirst(pod, p, later);
        var q :| FiresFirst(pod, q, later) && CheckAt(pod, q, later) == Classify(pod, later);
        FirstIsUnique(pod, p, q, later);
      }
    }
  }

  predicate OutOfMemory(cs: ContainerStatus) {
    || (cs.lastTerminated.Some? && cs.lastTerminated.value.reason == "OOMKilled")
    || (cs.terminated.Some? && cs.terminated.value.reason == "OOMKilled")
  }

  predicate Crashed(pod: Pod, cs: ContainerStatus) {
    cs.terminated.Some? && cs.terminated.value.exitCode != 0 && !pod.restartNever
  }

  function DisplayedType(cs: ContainerStatus): Option<FailureType> {
    if cs.waiting.Some? then WaitingType(cs.waiting.value.reason) else None
  }

  /** The recorded cause beats the displayed symptom: a container is out of memory exactly when a
      termination record says so, whatever it is doing now; only then does what it waits for decide,
      only then a crash, and only when nothing else is known its readiness. */
  lemma CauseBeatsSymptom(pod: Pod, cs: ContainerStatus, now: int)
    ensures var s := ClassifyContainer(pod, cs, now);
            && (s.Some? ==> s.value.container == cs.name && s.value.restartCount == cs.restartCount)
            && (s.Some? && s.value.failureType == OOMKilled <==> OutOfMemory(cs))
            && (forall f :: f !in {OOMKilled, ProbeFailure, CrashLoopBackOff} ==>
                  ((s.Some? && s.value.failureType == f) <==> (!OutOfMemory(cs) && DisplayedType(cs) == Some(f))))
            && (s.Some? && s.value.failureType == CrashLoopBackOff <==>
                  !OutOfMemory(cs)
                  && (DisplayedType(cs) == Some(CrashLoopBackOff) || (DisplayedType(cs).None? && Crashed(pod, cs))))
            && (s.Some? && s.value.failureType == ProbeFailure <==>
                  !OutOfMemory(cs) && DisplayedType(cs).None? && !Crashed(pod, cs)
                  && ClassifyProbeFailure(pod, cs, now).Some?)
            && (s.None? ==> !OutOfMemory(cs) && DisplayedType(cs).None? && !Crashed(pod, cs))
  {
    hide ReadinessBudget;
  }

  /** The termination record that says a container ran out of memory: the previous one if it says so. */
  function FatalRecord(cs: ContainerStatus): Terminated
    requires OutOfMemory(cs)
  {
    if cs.lastTerminated.Some? && cs.lastTerminated.value.reason == "OOMKilled" then cs.lastTerminated.value
    else cs.terminated.value
  }

  /** A signal of exhausted memory quotes the record that says so, and keeps what is displayed meanwhile. */
  lemma MemorySignalQuotes(pod: Pod, cs: ContainerStatus, now: int)
    requires OutOfMemory(cs)
    ensures var s := ClassifyContainer(pod, cs, now);
            && s.Some? && s.value.container == cs.name && s.value.restartCount == cs.restartCount
            && s.value.reason == "OOMKilled" && s.value.message == FatalRecord(cs).message
            && s.value.exitCode == Some(FatalRecord(cs).exitCode)
            && (cs.lastTerminated == Some(FatalRecord(cs)) && cs.waiting.Some? ==>
                  s.value.observedReason == cs.waiting.value.reason)
  {
    hide ClassifyProbeFailure, WaitingType;
  }

  /** Failing that, a displayed reason that stands for a failure is quoted, with the previous exit code. */
  lemma DisplayedSignalQuotes(pod: Pod, cs: ContainerStatus, now: int)
    requires !OutOfMemory(cs) && DisplayedType(cs).Some?
    ensures var last := if cs.lastTerminated.Some? then Some(cs.lastTerminated.value.exitCode) else None;
            ClassifyContainer(pod, cs, now) ==
            Some(Signal(DisplayedType(cs).value, cs.name, cs.waiting.value.reason, "", cs.waiting.value.message, last,
                        cs.restartCount))
  {
    hide ClassifyProbeFailure, WaitingType;
  }

  /** Failing that too, a crash is quoted from its record. */
  lemma CrashSignalQuotes(pod: Pod, cs: ContainerStatus, now: int)
    requires !OutOfMemory(cs) && DisplayedType(cs).None? && Crashed(pod, cs)
    ensures var record := cs.terminated.value;
            ClassifyContainer(pod, cs, now) ==
            Some(Signal(CrashLoopBackOff, cs.name, record.reason, "", record.message, Some(record.exitCode),
                        cs.restartCount))
  {
    hide ClassifyProbeFailure, WaitingType;
  }

  /** And only then is a container reported as unready. */
  lemma UnreadySignalSays(pod: Pod, cs: ContainerStatus, now: int)
    requires ClassifyProbeFailure(pod, cs, now).Some?
    ensures var s := ClassifyProbeFailure(pod, cs, now).value;
            && s.failureType.ProbeFailure? && s.container == cs.name && s.reason == "ReadinessProbeFailed"
            && s.observedReason == "" && s.exitCode.None? && s.restartCount == cs.restartCount
  {
    hide ReadinessBudget;
  }

  /** The failure each displayed reason stands for; any other is a transient state. */
  lemma DisplayedReasonMeans(reason: string)
    ensures WaitingType(reason) == Some(CrashLoopBackOff) <==> reason == "CrashLoopBackOff"
    ensures WaitingType(reason) == Some(ImagePullBackOff) <==>
            || reason == "ImagePullBackOff" || reason == "ErrImagePull" || reason == "InvalidImageName"
            || reason == "ImageInspectError" || reason == "ErrImageNeverPull"
    ensures WaitingType(reason) == Some(CreateContainerConfigError) <==> reason == "CreateContainerConfigError"
    ensures WaitingType(reason) == Some(RunContainerError) <==>
            reason == "RunContainerError" || reason == "CreateContainerError"
    ensures WaitingType(reason).Some? ==>
              WaitingType(reason).value in {CrashLoopBackOff, ImagePullBackOff, CreateContainerConfigError, RunContainerError}
  {
    hide WaitingType;
    ReasonIsOne(reason);
  }

  lemma ReasonIsOne(reason: string)
    ensures WaitingType(reason) ==
            if reason == "CrashLoopBackOff" then Some(CrashLoopBackOff)
            else if reason == "ImagePullBackOff" || reason == "ErrImagePull" || reason == "InvalidImageName"
                    || reason == "ImageInspectError" || reason == "ErrImageNeverPull" then Some(ImagePullBackOff)
            else if reason == "CreateContainerConfigError" then Some(CreateContainerConfigError)
            else if reason == "RunContainerError" || reason == "CreateContainerError" then Some(RunContainerError)
            else None
  {
  }

  /** Container i is the first of that name. */
  predicate Declares(containers: seq<ContainerSpec>, name: string, i: nat) {
    && i < |containers| && containers[i].name == name
    && forall k :: 0 <= k < i ==> containers[k].name != name
  }

  /** How long a declared readiness probe allows, with the defaults for what it leaves out: the delay,
      threshold times period, and fifteen seconds. */
  function Allowance(probe: Probe): int {
    probe.initialDelaySeconds * SECOND
    + (if probe.failureThreshold > 0 then probe.failureThreshold else 3)
      * (if probe.periodSeconds > 0 then probe.periodSeconds * SECOND else 10 * SECOND)
    + 15 * SECOND
  }

  lemma {:induction false} BudgetIsAllowance(containers: seq<ContainerSpec>, name: string, i: nat)
    requires Declares(containers, name, i)
    ensures ReadinessBudget(containers, name) ==
            if containers[i].readiness.Some? then Some(Allowance(containers[i].readiness.value)) else None
  {
    if i > 0 {
      assert Declares(containers[1..], name, i - 1);
      BudgetIsAllowance(containers[1..], name, i - 1);
    }
  }

  lemma {:induction false} NoBudget(containers: seq<ContainerSpec>, name: string)
    requires forall k :: 0 <= k < |containers| ==> containers[k].name != name
    ensures ReadinessBudget(containers, name).None?
  {
    if containers != [] {
      NoBudget(containers[1..], name);
    }
  }

  /** A running container is reported as unready exactly from its start plus that allowance on; one that
      is ready, or declares no readiness probe, never is. */
  lemma UnreadyReportedFrom(pod: Pod, cs: ContainerStatus, now: int)
    ensures ClassifyProbeFailure(pod, cs, now).Some? <==>
            && !cs.ready && cs.runningSince.Some?
            && exists i: nat :: Declares(pod.containers, cs.name, i) && pod.containers[i].readiness.Some?
                                && now >= cs.runningSince.value + Allowance(pod.containers[i].readiness.value)
  {
    hide Allowance, ReadinessBudget;
    if i: nat :| Declares(pod.containers, cs.name, i) {
      BudgetIsAllowance(pod.containers, cs.name, i);
      forall j: nat | Declares(pod.containers, cs.name, j) ensures j == i {
      }
    } else {
      NoneDeclared(pod.containers, cs.name);
      NoBudget(pod.containers, cs.name);
    }
  }

  lemma {:induction false} NoneDeclared(containers: seq<ContainerSpec>, name: string)
    requires forall i: nat :: !Declares(containers, name, i)
    ensures forall k :: 0 <= k < |containers| ==> containers[k].name != name
  {
    if k :| 0 <= k < |containers| && containers[k].name == name {
      FirstDeclared(containers, name, k);
    }
  }

  lemma {:induction false} FirstDeclared(containers: seq<ContainerSpec>, name: string, k: nat)
    requires k < |containers| && containers[k].name == name
    ensures exists i: nat :: Declares(containers, name, i)
  {
    if j :| 0 <= j < k && containers[j].name == name {
      FirstDeclared(containers, name, j);
    } else {
      assert Declares(containers, name, k);
    }
  }

  /** The scheduler's verdict among a pod's conditions. */
  predicate Verdict(c: Condition) {
    c.kind == "PodScheduled" && c.isFalse && c.reason == "Unschedulable"
  }

  predicate FirstVerdict(conditions: seq<Condition>, i: int) {
    && 0 <= i < |conditions| && Verdict(conditions[i])
    && forall k :: 0 <= k < i ==> !Verdict(conditions[k])
  }

  /** A pending pod is reported as unschedulable exactly from thirty seconds after the first verdict on,
      with that verdict's words. */
  lemma {:induction false} UnschedulableReportedFrom(pod: Pod, conditions: seq<Condition>, now: int)
    ensures var s := ClassifyUnschedulable(pod, conditions, now);
            && (s.Some? ==> exists i :: FirstVerdict(conditions, i))
            && forall i :: FirstVerdict(conditions, i) ==>
                 s == if pod.pending && now >= conditions[i].since + 30 * SECOND
                      then Some(Signal(Unschedulable, "", "Unschedulable", "", conditions[i].message, None, 0)) else None
  {
    if conditions != [] && pod.pending && !Verdict(conditions[0]) {
      var tail := conditions[1..];
      UnschedulableReportedFrom(pod, tail, now);
      forall i ensures FirstVerdict(conditions, i) <==> FirstVerdict(tail, i - 1) {
        assert forall k :: 1 <= k < |conditions| ==> conditions[k] == tail[k - 1];
        assert forall k :: 0 <= k < |tail| ==> tail[k] == conditions[k + 1];
      }
      if i :| FirstVerdict(tail, i) {
        assert FirstVerdict(conditions, i + 1);
      }
    } else if conditions != [] && pod.pending {
      assert FirstVerdict(conditions, 0);
    }
  }
}
