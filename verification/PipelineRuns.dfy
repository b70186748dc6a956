/** What every run of the pipeline guarantees: phases only advance, each result is written once, names
    denote failures, and findings belong to the evidence they are stored with. */
module PipelineRuns {
  import opened Wrappers
  import opened Text
  import opened Kinds
  import opened Detector
  import opened Evidence
  import opened Api
  import opened InvestigatorController
  import opened Workload
  import opened Pipeline
  import Signature

  // ----- runs -----

  /** The detector classified this pod as failing, attributed it to this workload and named the
      diagnosis after both. */
  ghost predicate Detects(
      hash: string -> string, cluster: Cluster, pod: Pod, now: int, policy: string, observedAt: int,
      key: Key, spec: Spec)
  {
    var found, signal := ResolveWorkload(cluster, pod), Classify(pod, now);
    && found.Resolved? && signal.Some?
    && Names(hash, found.workload.kind, found.workload.name, key, spec)
    && key.namespaceName == pod.namespaceName
    && spec == SpecFor(pod, found.workload, signal.value, policy, spec.signature, observedAt)
  }

  /** The signature and the name are those of this failure of this workload. */
  ghost predicate Names(hash: string -> string, kind: string, name: string, key: Key, spec: Spec) {
    var hashed := Signature.Key(key.namespaceName, kind, name, spec.container, spec.failureType);
    && |hash(hashed)| >= Signature.SIGNATURE_LENGTH
    && spec.signature == Signature.Of(hash, hashed) && Signature.Hex(spec.signature)
    && key.name == Signature.DiagnosisName(name, spec.failureType, spec.signature)
  }

  ghost predicate Opens(hash: string -> string, key: Key, spec: Spec) {
    exists cluster, pod, now, policy, observedAt :: Detects(hash, cluster, pod, now, policy, observedAt, key, spec)
  }

  ghost predicate Takes(hash: string -> string, s: State, a: Step) {
    Enabled(s, a) && (a.Miss? ==> Opens(hash, a.key, a.spec))
  }

  ghost predicate Run(hash: string -> string, states: seq<State>, actions: seq<Step>) {
    && |states| == |actions| + 1
    && states[0] == INITIAL
    && forall i :: 0 <= i < |actions| ==> StepOf(hash, states[i], actions[i], states[i + 1])
  }

  ghost predicate StepOf(hash: string -> string, s: State, a: Step, t: State) {
    Takes(hash, s, a) && t == Next(s, a)
  }

  lemma {:induction false} RunKeepsInv(hash: string -> string, states: seq<State>, actions: seq<Step>, n: nat)
    requires Run(hash, states, actions) && n < |states|
    ensures Inv(states[n])
  {
    hide Inv, Enabled, Next;
    if n == 0 {
      InitialOK();
    } else {
      RunKeepsInv(hash, states, actions, n - 1);
      assert StepOf(hash, states[n - 1], actions[n - 1], states[n]);
      StepKeepsInv(states[n - 1], actions[n - 1]);
    }
  }

  // ----- what one step does to the server -----

  /** A new object, under a name nobody holds. */
  ghost predicate Creation(s: State, a: Step, o: Object) {
    && a.Create? && WorkerAt(s, a.worker) == Opening(o.key, o.spec)
    && o.key !in s.objects && o.uid == s.nextUid && o.status == EMPTY_STATUS
  }

  /** A live object in its next phase, with nothing already recorded changed. */
  ghost predicate Advance(s: State, o: Object) {
    && o.key in s.objects
    && var was := s.objects[o.key];
       && o.uid == was.uid && o.spec == was.spec
       && Stage(o.status.phase) == Stage(was.status.phase) + 1 && Advances(was.status, o.status)
  }

  ghost predicate Unwritten(s: State, a: Step, t: State) {
    && t.history == s.history
    && (t.objects == s.objects || (a.Delete? && t.objects == s.objects - {a.key}))
  }

  ghost predicate Writes(s: State, a: Step, t: State, o: Object) {
    && t.history == s.history + {o} && t.objects == s.objects[o.key := o]
    && (Creation(s, a, o) || Advance(s, o))
  }

  lemma MarkDetectedWrites(s: State, w: nat, stamp: int)
    requires Inv(s) && Enabled(s, MarkDetected(w, stamp)) && Current(s, WorkerAt(s, w).created)
    ensures var made := WorkerAt(s, w).created;
            Writes(s, MarkDetected(w, stamp), Next(s, MarkDetected(w, stamp)),
                   Written(s, made, DetectedStatus(made.status, stamp)))
  {
    WorkerFacts(s, w);
    CurrentIsRead(s, WorkerAt(s, w).created);
    hide Inv;
  }

  lemma WriteEvidenceWrites(s: State, w: nat, stamp: int, ev: Evidence)
    requires Inv(s) && Enabled(s, WriteEvidence(w, stamp, ev)) && Current(s, WorkerAt(s, w).seen)
    ensures var seen := WorkerAt(s, w).seen;
            Writes(s, WriteEvidence(w, stamp, ev), Next(s, WriteEvidence(w, stamp, ev)),
                   Written(s, seen, EnrichedStatus(seen.status, stamp, ev)))
  {
    var seen := WorkerAt(s, w).seen;
    WorkerFacts(s, w);
    CurrentIsRead(s, seen);
    StoredStatusOK(s, seen);
    hide Inv, WellGathered;
  }

  lemma WriteFindingsWrites(s: State, w: nat, stamp: int)
    requires Inv(s) && Enabled(s, WriteFindings(w, stamp)) && Current(s, WorkerAt(s, w).latest)
    ensures var d := WorkerAt(s, w);
            Writes(s, WriteFindings(w, stamp), AfterWriteFindings(s, w, stamp),
                   Written(s, d.latest, HypothesizedStatus(d.latest.status, stamp, d.record, d.hypotheses)))
  {
    hide Inv, StatusOK, Derived, Advances;
    WorkerFacts(s, w);
    var d := WorkerAt(s, w);
    CurrentIsRead(s, d.latest);
    StoredStatusOK(s, d.latest);
    FindingsAdvance(d.latest.status, stamp, d.record, d.hypotheses, s.now);
  }

  /** Every step leaves the server alone, removes one object, creates one, or advances one by exactly
      one phase. */
  lemma StepShape(s: State, a: Step)
    requires Inv(s) && Enabled(s, a)
    ensures Unwritten(s, a, Next(s, a)) || exists o :: Writes(s, a, Next(s, a), o)
  {
    hide Inv, Writes;
    match a
    case Create(w) => CreateShape(s, w);
    case MarkDetected(w, stamp) =>
      if Current(s, WorkerAt(s, w).created) {
        MarkDetectedWrites(s, w, stamp);
      }
    case WriteEvidence(w, stamp, ev) =>
      if Current(s, WorkerAt(s, w).seen) {
        WriteEvidenceWrites(s, w, stamp, ev);
      }
    case WriteFindings(w, stamp) =>
      if Current(s, WorkerAt(s, w).latest) {
        WriteFindingsWrites(s, w, stamp);
      }
    case _ =>
  }

  lemma CreateShape(s: State, w: nat)
    requires WorkerAt(s, w).Opening?
    ensures Unwritten(s, Create(w), AfterCreate(s, w)) || exists o :: Writes(s, Create(w), AfterCreate(s, w), o)
  {
    var d := WorkerAt(s, w);
    if d.key !in s.objects {
      assert Writes(s, Create(w), AfterCreate(s, w), Object(d.key, s.nextVersion, s.nextUid, d.spec, EMPTY_STATUS));
    }
  }

  lemma StepGrowsHistory(s: State, a: Step)
    requires Inv(s) && Enabled(s, a)
    ensures s.history <= Next(s, a).history
  {
    StepShape(s, a);
    hide Next, Enabled, Inv, Creation, Advance;
  }

  lemma {:induction false} HistoryGrows(
      hash: string -> string, states: seq<State>, actions: seq<Step>, i: nat, j: nat)
    requires Run(hash, states, actions) && i <= j < |states|
    ensures states[i].history <= states[j].history
    decreases j
  {
    hide Inv, Enabled, Next;
    if i < j {
      HistoryGrows(hash, states, actions, i, j - 1);
      RunKeepsInv(hash, states, actions, j - 1);
      assert StepOf(hash, states[j - 1], actions[j - 1], states[j]);
      StepGrowsHistory(states[j - 1], actions[j - 1]);
    }
  }

  // ----- phases -----

  /** Everything ever stored is in a consistent phase: each timestamp, the evidence and the findings
      are present exactly from their phase on, in order. */
  lemma EveryVersionIsConsistent(
      hash: string -> string, states: seq<State>, actions: seq<Step>, n: nat, v: Object)
    requires Run(hash, states, actions) && n < |states| && v in states[n].history
    ensures StatusOK(v.status, states[n].now)
  {
    RunKeepsInv(hash, states, actions, n);
    StoredStatusOK(states[n], v);
  }

  /** While an object lives, a step leaves it alone or moves it to the next phase. */
  lemma OnePhaseAtATime(
      hash: string -> string, states: seq<State>, actions: seq<Step>, n: nat, key: Key)
    requires Run(hash, states, actions) && n < |actions|
    requires key in states[n].objects && key in states[n + 1].objects
    ensures var v, w := states[n].objects[key], states[n + 1].objects[key];
            v == w || (v.uid == w.uid && v.spec == w.spec && Stage(w.status.phase) == Stage(v.status.phase) + 1
                       && Advances(v.status, w.status))
  {
    RunKeepsInv(hash, states, actions, n);
    hide Inv, Enabled, Next, Advances, Stage;
    assert StepOf(hash, states[n], actions[n], states[n + 1]);
    StepShape(states[n], actions[n]);
  }

  /** Over any stretch of a run an object's spec stays, its phase never goes back, and what a phase
      recorded is what later versions hold. */
  lemma NeverGoesBack(
      hash: string -> string, states: seq<State>, actions: seq<Step>, i: nat, j: nat, key: Key)
    requires Run(hash, states, actions) && i <= j < |states|
    requires key in states[i].objects && key in states[j].objects
    requires states[i].objects[key].uid == states[j].objects[key].uid
    ensures var v, w := states[i].objects[key], states[j].objects[key];
            v == w || (v.spec == w.spec && Advances(v.status, w.status))
  {
    RunKeepsInv(hash, states, actions, i);
    RunKeepsInv(hash, states, actions, j);
    HistoryGrows(hash, states, actions, i, j);
    LaterVersion(states[i], states[j], key);
  }

  lemma LaterVersion(s: State, t: State, key: Key)
    requires ObjectsOK(s.objects, s.history) && ObjectsOK(t.objects, t.history)
    requires HistoryOK(t.history, t.nextVersion, t.nextUid, t.now) && s.history <= t.history
    requires key in s.objects && key in t.objects && s.objects[key].uid == t.objects[key].uid
    ensures var v, w := s.objects[key], t.objects[key];
            v == w || (v.spec == w.spec && Advances(v.status, w.status))
  {
    hide StatusOK, Advances;
    var v, w := s.objects[key], t.objects[key];
    assert v in t.history && w in t.history;
    assert SameObject(v, w);
  }

  /** Each stage's result is written at most once: an object never has two versions in one phase. */
  lemma WrittenOncePerPhase(
      hash: string -> string, states: seq<State>, actions: seq<Step>, n: nat, v: Object, w: Object)
    requires Run(hash, states, actions) && n < |states|
    requires v in states[n].history && w in states[n].history && v.uid == w.uid && v.status.phase == w.status.phase
    ensures v == w
  {
    RunKeepsInv(hash, states, actions, n);
    hide StatusOK, ObjectsOK, WorkersOK, OriginsOK, Stage;
    assert SameObject(v, w) && SameObject(w, v);
  }

  // ----- names -----

  ghost predicate AllNamed(hash: string -> string, s: State) {
    && (forall v <- s.history :: Opens(hash, v.key, v.spec))
    && (forall w <- s.workers :: s.workers[w].Opening? ==> Opens(hash, s.workers[w].key, s.workers[w].spec))
  }

  lemma OpeningWorkers(hash: string -> string, s: State, a: Step, w: nat)
    requires Takes(hash, s, a) && w in Next(s, a).workers && Next(s, a).workers[w].Opening?
    ensures (w in s.workers && s.workers[w] == Next(s, a).workers[w])
            || (a.Miss? && Next(s, a).workers[w] == Opening(a.key, a.spec))
  {
    hide Opens, Written, Current, EvidenceFor, Investigated, RecordOf;
    hide DetectedStatus, EnrichedStatus, HypothesizedStatus;
  }

  lemma StepKeepsNames(hash: string -> string, s: State, a: Step)
    requires Inv(s) && AllNamed(hash, s) && Takes(hash, s, a)
    ensures AllNamed(hash, Next(s, a))
  {
    hide Inv, Opens, Next, Enabled, Unwritten, Writes;
    StepShape(s, a);
    LiveIsStored(s);
    StoredAreNamed(hash, s, a, Next(s, a));
    OpeningAreNamed(hash, s, a);
  }

  lemma StoredAreNamed(hash: string -> string, s: State, a: Step, t: State)
    requires AllNamed(hash, s) && (Unwritten(s, a, t) || exists o :: Writes(s, a, t, o))
    requires forall k <- s.objects :: s.objects[k] in s.history && s.objects[k].key == k
    ensures forall v <- t.history :: Opens(hash, v.key, v.spec)
  {
    hide Opens;
    if o :| Writes(s, a, t, o) {
      WrittenIsNamed(hash, s, a, t, o);
    }
  }

  lemma OpeningAreNamed(hash: string -> string, s: State, a: Step)
    requires AllNamed(hash, s) && Takes(hash, s, a)
    ensures forall w <- Next(s, a).workers ::
              Next(s, a).workers[w].Opening? ==> Opens(hash, Next(s, a).workers[w].key, Next(s, a).workers[w].spec)
  {
    hide Opens, Next, Enabled;
    var workers := Next(s, a).workers;
    forall w | w in workers && workers[w].Opening? ensures Opens(hash, workers[w].key, workers[w].spec) {
      OpeningWorkers(hash, s, a, w);
    }
  }

  lemma WrittenIsNamed(hash: string -> string, s: State, a: Step, t: State, o: Object)
    requires AllNamed(hash, s) && Writes(s, a, t, o)
    requires forall k <- s.objects :: s.objects[k] in s.history && s.objects[k].key == k
    ensures Opens(hash, o.key, o.spec)
  {
    hide Opens, Advances, Stage;
    if Advance(s, o) {
      assert Opens(hash, s.objects[o.key].key, s.objects[o.key].spec);
    } else {
      assert a.worker in s.workers;
    }
  }

  lemma LiveIsStored(s: State)
    requires Inv(s)
    ensures forall k <- s.objects :: s.objects[k] in s.history && s.objects[k].key == k
  {
    hide HistoryOK, WorkersOK, OriginsOK;
  }

  lemma {:induction false} RunKeepsNames(hash: string -> string, states: seq<State>, actions: seq<Step>, n: nat)
    requires Run(hash, states, actions) && n < |states|
    ensures AllNamed(hash, states[n])
  {
    hide Inv, Enabled, Next, Opens;
    if n > 0 {
      RunKeepsNames(hash, states, actions, n - 1);
      RunKeepsInv(hash, states, actions, n - 1);
      assert StepOf(hash, states[n - 1], actions[n - 1], states[n]);
      StepKeepsNames(hash, states[n - 1], actions[n - 1]);
    }
  }

  /** Across deletes, recreations and races, a name always stands for one failure type and signature. */
  lemma NameDenotesOneFailure(
      hash: string -> string, states: seq<State>, actions: seq<Step>, n: nat, v: Object, w: Object)
    requires Run(hash, states, actions) && n < |states|
    requires v in states[n].history && w in states[n].history && v.key == w.key
    ensures v.spec.failureType == w.spec.failureType && v.spec.signature == w.spec.signature
  {
    RunKeepsNames(hash, states, actions, n);
    hide Run, ResolveWorkload, Classify, SpecFor, Signature.DiagnosisName, Signature.Hex;
    var c1, p1, n1, r1, o1 :| Detects(hash, c1, p1, n1, r1, o1, v.key, v.spec);
    var c2, p2, n2, r2, o2 :| Detects(hash, c2, p2, n2, r2, o2, w.key, w.spec);
    Signature.NameInjective(
      ResolveWorkload(c1, p1).workload.name, v.spec.failureType, v.spec.signature,
      ResolveWorkload(c2, p2).workload.name, w.spec.failureType, w.spec.signature);
  }

  // ----- what a detection records -----

  /** Every field of a new diagnosis: the failing pod by name and uid, the workload it was attributed to
      unless it stands for itself, and the failure, container, policy and time of the detection, under
      the pod's namespace. */
  lemma DetectionRecords(
      hash: string -> string, cluster: Cluster, pod: Pod, now: int, policy: string, observedAt: int,
      key: Key, spec: Spec)
    requires Detects(hash, cluster, pod, now, policy, observedAt, key, spec)
    ensures key.namespaceName == pod.namespaceName
    ensures spec.target.name == pod.name && spec.target.uid == pod.uid
    ensures var w := ResolveWorkload(cluster, pod).workload;
            && (w.kind == "Pod" ==> spec.target.owner.None?)
            && (w.kind != "Pod" ==> spec.target.owner == Some(Owner(w.kind, w.name)))
    ensures var signal := Classify(pod, now).value;
            spec.failureType == signal.failureType && spec.container == signal.container
    ensures spec.policyRef == policy && spec.observedAt == observedAt
  {
    hide Classify, ResolveWorkload, Names;
  }

  /** The signature is the first eight characters of the hash of the pod's namespace, its workload's kind and
      name, its container and failure, joined by NUL; and the name is made of the workload, the failure and
      that. */
  lemma DetectionNames(
      hash: string -> string, cluster: Cluster, pod: Pod, now: int, policy: string, observedAt: int,
      key: Key, spec: Spec)
    requires Detects(hash, cluster, pod, now, policy, observedAt, key, spec)
    ensures var w := ResolveWorkload(cluster, pod).workload;
            var hashed := Join([pod.namespaceName, w.kind, w.name, spec.container, FailureName(spec.failureType)], ['\0']);
            && |spec.signature| == 8 && spec.signature <= hash(hashed)
            && key.name == Signature.WorkloadSegment(w.name)
                           + ("-" + (Signature.Sanitize(FailureName(spec.failureType)) + ("-" + spec.signature)))
  {
    var w := ResolveWorkload(cluster, pod).workload;
    Signature.KeyIsJoined(pod.namespaceName, w.kind, w.name, spec.container, spec.failureType);
    Signature.NameShape(w.name, spec.failureType, spec.signature);
    hide Classify, ResolveWorkload, Signature.DiagnosisName, Signature.Key, Signature.Segment, FailureName, Join, SpecFor,
         Signature.WorkloadSegment, Signature.Sanitize;
  }

  /** Replicas that fail alike are diagnosed under one name, whoever detects them and when. */
  lemma ReplicasShareAName(
      hash: string -> string, cluster: Cluster, pod: Pod, sibling: Pod, now: int, later: int, policy: string,
      policy': string, at: int, at': int, key: Key, spec: Spec, key': Key, spec': Spec)
    requires Detects(hash, cluster, pod, now, policy, at, key, spec)
    requires Detects(hash, cluster, sibling, later, policy', at', key', spec')
    requires pod.namespaceName == sibling.namespaceName
    requires ControllerOf(pod.owners).Some? && ControllerOf(sibling.owners).Some?
    requires ControllerOf(pod.owners).value.kind == ControllerOf(sibling.owners).value.kind
    requires ControllerOf(pod.owners).value.name == ControllerOf(sibling.owners).value.name
    requires spec.failureType == spec'.failureType && spec.container == spec'.container
    ensures key == key' && spec.signature == spec'.signature
  {
    ReplicasShareAWorkload(cluster, pod, sibling);
    hide Classify, ResolveWorkload, SpecFor, Signature.DiagnosisName, Signature.Key, Signature.Hex;
  }
}
