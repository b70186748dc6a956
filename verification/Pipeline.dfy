/** The three reconcilers of internal/controller as one distributed protocol. They share nothing but
    versioned objects on the API server; every read may be stale, every write is conditional on the
    version read, requests fail and workers crash at any point, and anyone may delete an object. */
module Pipeline {
  import opened Wrappers
  import opened Kinds
  import opened Evidence
  import opened Validation
  import opened Tools
  import opened Investigation
  import opened Api
  import opened InvestigatorController

  datatype Key = Key(namespaceName: string, name: string)

  /** One stored version of a diagnosis. */
  datatype Object = Object(key: Key, version: nat, uid: nat, spec: Spec, status: Status)

  /** What a worker holds between two requests. `since` is the clock when it last read. */
  datatype Worker =
    | Idle
    | Opening(key: Key, spec: Spec)
    | Opened(created: Object, since: int)
    | Gathering(seen: Object, since: int)
    | Investigating(seen: Object)
    | Finished(seen: Object, record: InvestigationRecord, hypotheses: seq<Hypothesis>)
    | Recording(seen: Object, record: InvestigationRecord, hypotheses: seq<Hypothesis>, latest: Object, since: int)

  /** The server, the workers, and two history variables: every version ever stored, and for each
      object with findings, the version they were computed from. */
  datatype State = State(
    objects: map<Key, Object>,
    nextVersion: nat,
    nextUid: nat,
    now: int,
    workers: map<nat, Worker>,
    history: set<Object>,
    origins: map<nat, Object>)

  const INITIAL := State(map[], 0, 0, 0, map[], {}, map[])

  datatype Step =
    | Tick(to: int)
    | Miss(worker: nat, key: Key, spec: Spec)
    | Create(worker: nat)
    | MarkDetected(worker: nat, stamp: int)
    | ReadDetected(worker: nat, seen: Object)
    | WriteEvidence(worker: nat, stamp: int, evidence: Evidence)
    | ReadEnriched(worker: nat, seen: Object)
    | Conclude(worker: nat, config: AgentConfig, pricing: Pricing, findings: Findings, calls: seq<AuditRecord>)
    | Reread(worker: nat, latest: Object)
    | WriteFindings(worker: nat, stamp: int)
    | Abandon(worker: nat)
    | Delete(key: Key)

  function WorkerAt(s: State, w: nat): Worker {
    if w in s.workers then s.workers[w] else Idle
  }

  function WithWorker(s: State, w: nat, worker: Worker): State {
    s.(workers := s.workers[w := worker])
  }

  // ----- what each stage writes -----

  /** Evidence gathered for a failure, or the record that its pod was gone. */
  ghost predicate EvidenceFor(f: FailureType, ev: Evidence) {
    (exists source :: CollectedFor(f, source, ev)) || ev == WITHOUT_POD
  }

  function RecordOf(f: Findings, calls: seq<AuditRecord>): InvestigationRecord {
    InvestigationRecord("model", Recorded(calls), f.tokens, f.cost, f.budgetExhausted, f.stopReason, f.degraded, f.turns)
  }

  /** A record and hypotheses that some investigation of this version's own evidence produced. */
  ghost predicate Derived(seen: Object, record: InvestigationRecord, hypotheses: seq<Hypothesis>) {
    exists config, pricing, f, calls ::
      DerivedBy(seen, record, hypotheses, config, pricing, f, calls)
  }

  ghost predicate DerivedBy(
      seen: Object, record: InvestigationRecord, hypotheses: seq<Hypothesis>,
      config: AgentConfig, pricing: Pricing, f: Findings, calls: seq<AuditRecord>)
  {
    && Investigated(seen.key.namespaceName, seen.spec, seen.status.evidence, config, pricing, f, calls)
    && record == RecordOf(f, calls) && hypotheses == f.hypotheses
  }

  function DetectedStatus(s: Status, stamp: int): Status {
    s.(phase := Detected, timings := s.timings.(detectedAt := Some(stamp)))
  }

  function EnrichedStatus(s: Status, stamp: int, ev: Evidence): Status {
    s.(evidence := Some(ev), phase := Enriched, timings := s.timings.(enrichedAt := Some(stamp)))
  }

  function HypothesizedStatus(
      s: Status, stamp: int, record: InvestigationRecord, hypotheses: seq<Hypothesis>): Status
  {
    s.(investigation := Some(record), hypotheses := hypotheses, phase := Hypothesized,
       timings := s.timings.(hypothesizedAt := Some(stamp)))
  }

  // ----- the server -----

  /** A status write succeeds only on the version it was read at. */
  predicate Current(s: State, read: Object) {
    read.key in s.objects && s.objects[read.key].version == read.version
  }

  function Stored(s: State, o: Object): State {
    s.(objects := s.objects[o.key := o], nextVersion := s.nextVersion + 1, history := s.history + {o})
  }

  function Written(s: State, read: Object, status: Status): Object
    requires Current(s, read)
  {
    s.objects[read.key].(version := s.nextVersion, status := status)
  }

  // ----- steps -----

  ghost predicate Enabled(s: State, a: Step) {
    match a
    case Tick(to) => s.now <= to
    case Miss(w, _, _) => WorkerAt(s, w).Idle?
    case Create(w) => WorkerAt(s, w).Opening?
    case MarkDetected(w, stamp) => WorkerAt(s, w).Opened? && WorkerAt(s, w).since <= stamp <= s.now
    case ReadDetected(w, seen) => WorkerAt(s, w).Idle? && seen in s.history && seen.status.phase.Detected?
    case WriteEvidence(w, stamp, ev) =>
      && WorkerAt(s, w).Gathering? && WorkerAt(s, w).since <= stamp <= s.now
      && EvidenceFor(WorkerAt(s, w).seen.spec.failureType, ev)
    case ReadEnriched(w, seen) => WorkerAt(s, w).Idle? && seen in s.history && seen.status.phase.Enriched?
    case Conclude(w, config, pricing, f, calls) =>
      && WorkerAt(s, w).Investigating?
      && var seen := WorkerAt(s, w).seen;
         Investigated(seen.key.namespaceName, seen.spec, seen.status.evidence, config, pricing, f, calls)
    case Reread(w, latest) =>
      WorkerAt(s, w).Finished? && latest in s.history && latest.key == WorkerAt(s, w).seen.key
    case WriteFindings(w, stamp) => WorkerAt(s, w).Recording? && WorkerAt(s, w).since <= stamp <= s.now
    case Abandon(w) => true
    case Delete(key) => key in s.objects
  }

  ghost function Next(s: State, a: Step): State
    requires Enabled(s, a)
  {
    match a
    case Tick(to) => s.(now := to)
    case Miss(w, key, spec) => WithWorker(s, w, Opening(key, spec))
    case Create(w) => AfterCreate(s, w)
    case MarkDetected(w, stamp) =>
      var made := WorkerAt(s, w).created;
      if Current(s, made) then WithWorker(Stored(s, Written(s, made, DetectedStatus(made.status, stamp))), w, Idle)
      else WithWorker(s, w, Idle)
    case ReadDetected(w, seen) => WithWorker(s, w, Gathering(seen, s.now))
    case WriteEvidence(w, stamp, ev) =>
      var seen := WorkerAt(s, w).seen;
      if Current(s, seen) then WithWorker(Stored(s, Written(s, seen, EnrichedStatus(seen.status, stamp, ev))), w, Idle)
      else WithWorker(s, w, Idle)
    case ReadEnriched(w, seen) => WithWorker(s, w, Investigating(seen))
    case Conclude(w, config, pricing, f, calls) =>
      WithWorker(s, w, Finished(WorkerAt(s, w).seen, RecordOf(f, calls), f.hypotheses))
    case Reread(w, latest) =>
      var d := WorkerAt(s, w);
      if latest.status.phase.Enriched? then
        WithWorker(s, w, Recording(d.seen, d.record, d.hypotheses, latest, s.now))
      else WithWorker(s, w, Idle)
    case WriteFindings(w, stamp) => AfterWriteFindings(s, w, stamp)
    case Abandon(w) => WithWorker(s, w, Idle)
    case Delete(key) => s.(objects := s.objects - {key})
  }

  /** The create is refused when the name is taken; otherwise the object starts without a phase. */
  function AfterCreate(s: State, w: nat): State
    requires WorkerAt(s, w).Opening?
  {
    var d := WorkerAt(s, w);
    if d.key in s.objects then WithWorker(s, w, Idle)
    else
      var o := Object(d.key, s.nextVersion, s.nextUid, d.spec, EMPTY_STATUS);
      WithWorker(Stored(s.(nextUid := s.nextUid + 1), o), w, Opened(o, s.now))
  }

  /** A conflict sends the worker back to read again, without investigating again. */
  function AfterWriteFindings(s: State, w: nat, stamp: int): State
    requires WorkerAt(s, w).Recording?
  {
    var d := WorkerAt(s, w);
    if Current(s, d.latest) then
      var o := Written(s, d.latest, HypothesizedStatus(d.latest.status, stamp, d.record, d.hypotheses));
      var t := Stored(s, o);
      WithWorker(t.(origins := t.origins[o.uid := d.seen]), w, Idle)
    else if d.latest.key in s.objects then WithWorker(s, w, Finished(d.seen, d.record, d.hypotheses))
    else WithWorker(s, w, Idle)
  }

  // ----- the invariant -----

  function Stage(p: Phase): nat {
    match p
    case NoPhase => 0
    case Detected => 1
    case Enriched => 2
    case Hypothesized => 3
  }

  /** Everything a phase promises: each timestamp and result is present exactly from its phase on, the
      timestamps are in order and past, and the evidence is well gathered. */
  ghost predicate StatusOK(s: Status, now: int) {
    && (s.timings.detectedAt.Some? <==> Stage(s.phase) >= 1)
    && (s.timings.enrichedAt.Some? <==> Stage(s.phase) >= 2)
    && (s.evidence.Some? <==> Stage(s.phase) >= 2)
    && (s.timings.hypothesizedAt.Some? <==> Stage(s.phase) >= 3)
    && (s.investigation.Some? <==> Stage(s.phase) >= 3)
    && (Stage(s.phase) < 3 ==> s.hypotheses == [])
    && (s.timings.detectedAt.Some? ==> s.timings.detectedAt.value <= now)
    && (s.timings.enrichedAt.Some? ==> s.timings.detectedAt.value <= s.timings.enrichedAt.value <= now)
    && (s.timings.hypothesizedAt.Some? ==> s.timings.enrichedAt.value <= s.timings.hypothesizedAt.value <= now)
    && (s.evidence.Some? ==> WellGathered(s.evidence.value))
  }

  /** The phase strictly advances and nothing already recorded changes. */
  ghost predicate Advances(a: Status, b: Status) {
    && Stage(a.phase) < Stage(b.phase)
    && (a.evidence.Some? ==> b.evidence == a.evidence)
    && (a.investigation.Some? ==> b.investigation == a.investigation && b.hypotheses == a.hypotheses)
    && (a.timings.detectedAt.Some? ==> b.timings.detectedAt == a.timings.detectedAt)
    && (a.timings.enrichedAt.Some? ==> b.timings.enrichedAt == a.timings.enrichedAt)
    && (a.timings.hypothesizedAt.Some? ==> b.timings.hypothesizedAt == a.timings.hypothesizedAt)
  }

  ghost predicate HistoryOK(history: set<Object>, nextVersion: nat, nextUid: nat, now: int) {
    && (forall v <- history :: v.version < nextVersion && v.uid < nextUid && StatusOK(v.status, now))
    && (forall v <- history, w <- history :: v.version == w.version ==> v == w)
    && (forall v <- history, w <- history :: v.uid == w.uid ==> SameObject(v, w))
  }

  ghost predicate SameObject(v: Object, w: Object) {
    && v.key == w.key && v.spec == w.spec
    && (v.version < w.version ==> Advances(v.status, w.status))
  }

  ghost predicate ObjectsOK(objects: map<Key, Object>, history: set<Object>) {
    forall k <- objects ::
      && objects[k] in history && objects[k].key == k
      && forall v <- history :: v.uid == objects[k].uid ==> v.version <= objects[k].version
  }

  ghost predicate WorkerOK(history: set<Object>, now: int, d: Worker) {
    match d
    case Idle => true
    case Opening(_, _) => true
    case Opened(made, since) => made in history && made.status == EMPTY_STATUS && since <= now
    case Gathering(seen, since) =>
      seen in history && seen.status.phase.Detected? && since <= now
      && seen.status.timings.detectedAt.Some? && seen.status.timings.detectedAt.value <= since
    case Investigating(seen) => seen in history && seen.status.phase.Enriched?
    case Finished(seen, record, hypotheses) =>
      seen in history && seen.status.phase.Enriched? && Derived(seen, record, hypotheses)
    case Recording(seen, record, hypotheses, latest, since) =>
      && seen in history && seen.status.phase.Enriched? && Derived(seen, record, hypotheses)
      && latest in history && latest.key == seen.key && latest.status.phase.Enriched? && since <= now
      && latest.status.timings.enrichedAt.Some? && latest.status.timings.enrichedAt.value <= since
  }

  /** Findings on record were derived from an enriched version of the same name. */
  ghost predicate OriginOK(s: State, v: Object) {
    && v.uid in s.origins && s.origins[v.uid] in s.history
    && s.origins[v.uid].key == v.key && s.origins[v.uid].status.phase.Enriched?
    && v.status.investigation.Some?
    && Derived(s.origins[v.uid], v.status.investigation.value, v.status.hypotheses)
  }

  ghost predicate OriginsOK(s: State) {
    forall v <- s.history :: v.status.phase.Hypothesized? ==> OriginOK(s, v)
  }

  ghost predicate WorkersOK(s: State) {
    forall w <- s.workers :: WorkerOK(s.history, s.now, s.workers[w])
  }

  ghost predicate Inv(s: State) {
    && HistoryOK(s.history, s.nextVersion, s.nextUid, s.now)
    && ObjectsOK(s.objects, s.history)
    && WorkersOK(s)
    && OriginsOK(s)
  }

  // ----- the invariant is kept -----

  lemma InitialOK()
    ensures Inv(INITIAL)
  {
  }

  /** A step that only changes one worker. */
  lemma WorkerStep(s: State, w: nat, d: Worker)
    requires Inv(s) && WorkerOK(s.history, s.now, d)
    ensures Inv(WithWorker(s, w, d))
  {
    hide HistoryOK, ObjectsOK, WorkerOK, Derived;
    forall v | v in s.history && v.status.phase.Hypothesized? ensures OriginOK(WithWorker(s, w, d), v) {
      assert OriginOK(s, v);
    }
  }

  lemma TickStep(s: State, to: int)
    requires Inv(s) && s.now <= to
    ensures Inv(s.(now := to))
  {
    hide Derived, WellGathered, SameObject;
    var t := s.(now := to);
    forall v | v in s.history && v.status.phase.Hypothesized? ensures OriginOK(t, v) {
      assert OriginOK(s, v);
    }
  }

  lemma DeleteStep(s: State, key: Key)
    requires Inv(s)
    ensures Inv(s.(objects := s.objects - {key}))
  {
    hide HistoryOK, WorkerOK, Derived;
    var t := s.(objects := s.objects - {key});
    forall v | v in s.history && v.status.phase.Hypothesized? ensures OriginOK(t, v) {
      assert OriginOK(s, v);
    }
  }

  /** A new version may be stored when it is newer than, and an advance on, all versions of its object. */
  ghost predicate Fresh(s: State, o: Object) {
    && o.version == s.nextVersion && StatusOK(o.status, s.now)
    && forall v <- s.history :: v.uid == o.uid ==>
         v.key == o.key && v.spec == o.spec && Advances(v.status, o.status)
  }

  lemma StoredHistory(s: State, o: Object, nextUid: nat)
    requires HistoryOK(s.history, s.nextVersion, s.nextUid, s.now) && Fresh(s, o)
    requires s.nextUid <= nextUid && o.uid < nextUid
    ensures HistoryOK(s.history + {o}, s.nextVersion + 1, nextUid, s.now)
  {
    hide StatusOK, Advances;
  }

  lemma StoredObjects(s: State, o: Object)
    requires HistoryOK(s.history, s.nextVersion, s.nextUid, s.now) && ObjectsOK(s.objects, s.history) && Fresh(s, o)
    ensures ObjectsOK(s.objects[o.key := o], s.history + {o})
  {
    hide StatusOK, Advances;
    forall k | k in s.objects && k != o.key ensures s.objects[k].uid != o.uid {
      assert s.objects[k] in s.history;
    }
  }

  lemma StoredWorkers(s: State, o: Object, d: Worker)
    requires WorkerOK(s.history, s.now, d)
    ensures WorkerOK(s.history + {o}, s.now, d)
  {
    hide Derived;
  }

  /** Storing a version that is not yet Hypothesized. */
  lemma StoreStep(s: State, o: Object, nextUid: nat, w: nat, d: Worker)
    requires Inv(s) && Fresh(s, o) && s.nextUid <= nextUid && o.uid < nextUid && !o.status.phase.Hypothesized?
    requires WorkerOK(s.history + {o}, s.now, d)
    ensures Inv(WithWorker(Stored(s.(nextUid := nextUid), o), w, d))
  {
    var t := WithWorker(Stored(s.(nextUid := nextUid), o), w, d);
    StoredHistory(s, o, nextUid);
    StoredObjects(s, o);
    hide HistoryOK, ObjectsOK, WorkerOK, Derived, Fresh;
    forall x | x in t.workers ensures WorkerOK(t.history, t.now, t.workers[x]) {
      if x != w {
        StoredWorkers(s, o, s.workers[x]);
      }
    }
    forall v | v in t.history && v.status.phase.Hypothesized? ensures OriginOK(t, v) {
      assert OriginOK(s, v);
    }
  }

  /** A successful conditional write finds exactly the version that was read. */
  lemma CurrentIsRead(s: State, read: Object)
    requires Inv(s) && read in s.history && Current(s, read)
    ensures s.objects[read.key] == read
  {
    hide StatusOK, SameObject, WorkersOK, OriginsOK;
  }

  lemma WrittenIsFresh(s: State, read: Object, status: Status)
    requires Inv(s) && read in s.history && Current(s, read)
    requires StatusOK(status, s.now) && Advances(read.status, status)
    ensures Fresh(s, Written(s, read, status)) && Written(s, read, status).uid == read.uid < s.nextUid
  {
    CurrentIsRead(s, read);
    hide StatusOK, WorkersOK, OriginsOK;
    forall v | v in s.history && v.uid == read.uid
      ensures v.key == read.key && v.spec == read.spec && Advances(v.status, status)
    {
      assert SameObject(v, read);
      assert v.version == read.version ==> v == read;
    }
  }

  lemma CreateStep(s: State, w: nat)
    requires Inv(s) && WorkerAt(s, w).Opening?
    ensures Inv(AfterCreate(s, w))
  {
    var d := WorkerAt(s, w);
    if d.key in s.objects {
      WorkerStep(s, w, Idle);
    } else {
      var o := Object(d.key, s.nextVersion, s.nextUid, d.spec, EMPTY_STATUS);
      CreatedIsFresh(s, o);
      hide Inv, Fresh;
      StoreStep(s, o, s.nextUid + 1, w, Opened(o, s.now));
    }
  }

  lemma CreatedIsFresh(s: State, o: Object)
    requires Inv(s) && o.version == s.nextVersion && o.uid == s.nextUid && o.status == EMPTY_STATUS
    ensures Fresh(s, o)
  {
    hide WorkersOK, OriginsOK, ObjectsOK, SameObject;
  }

  lemma MarkDetectedStep(s: State, w: nat, stamp: int)
    requires Inv(s) && Enabled(s, MarkDetected(w, stamp))
    ensures Inv(Next(s, MarkDetected(w, stamp)))
  {
    var made := WorkerAt(s, w).created;
    assert WorkerOK(s.history, s.now, s.workers[w]);
    if Current(s, made) {
      var status := DetectedStatus(made.status, stamp);
      assert StatusOK(status, s.now) && Advances(made.status, status);
      WrittenIsFresh(s, made, status);
      hide Inv, Fresh, StatusOK, Advances;
      StoreStep(s, Written(s, made, status), s.nextUid, w, Idle);
    } else {
      WorkerStep(s, w, Idle);
    }
  }

  lemma EvidenceAdvances(was: Status, stamp: int, ev: Evidence, now: int)
    requires StatusOK(was, now) && was.phase.Detected? && WellGathered(ev)
    requires was.timings.detectedAt.Some? ==> was.timings.detectedAt.value <= stamp <= now
    ensures StatusOK(EnrichedStatus(was, stamp, ev), now) && Advances(was, EnrichedStatus(was, stamp, ev))
  {
    hide WellGathered;
  }

  lemma EvidenceForIsWellGathered(f: FailureType, ev: Evidence)
    requires EvidenceFor(f, ev)
    ensures WellGathered(ev)
  {
    WithoutPodIsWellGathered();
    hide WellGathered;
  }

  lemma WriteEvidenceStep(s: State, w: nat, stamp: int, ev: Evidence)
    requires Inv(s) && Enabled(s, WriteEvidence(w, stamp, ev))
    ensures Inv(Next(s, WriteEvidence(w, stamp, ev)))
  {
    hide Inv, EvidenceFor, StatusOK, Advances, Fresh, EnrichedStatus;
    WorkerFacts(s, w);
    var seen := WorkerAt(s, w).seen;
    if Current(s, seen) {
      var status := EnrichedStatus(seen.status, stamp, ev);
      EvidenceForIsWellGathered(seen.spec.failureType, ev);
      StoredStatusOK(s, seen);
      EvidenceAdvances(seen.status, stamp, ev, s.now);
      WrittenIsFresh(s, seen, status);
      EnrichedPhase(seen.status, stamp, ev);
      StoreStep(s, Written(s, seen, status), s.nextUid, w, Idle);
    } else {
      WorkerStep(s, w, Idle);
    }
  }

  lemma EnrichedPhase(was: Status, stamp: int, ev: Evidence)
    ensures EnrichedStatus(was, stamp, ev).phase.Enriched?
  {
  }

  lemma WorkerFacts(s: State, w: nat)
    requires Inv(s) && w in s.workers
    ensures WorkerOK(s.history, s.now, s.workers[w])
  {
    hide HistoryOK, ObjectsOK, OriginsOK, WorkerOK;
  }

  lemma StoredStatusOK(s: State, v: Object)
    requires Inv(s) && v in s.history
    ensures StatusOK(v.status, s.now)
  {
    hide WorkersOK, ObjectsOK, OriginsOK, StatusOK;
  }

  lemma FindingsAdvance(was: Status, stamp: int, record: InvestigationRecord, hypotheses: seq<Hypothesis>, now: int)
    requires StatusOK(was, now) && was.phase.Enriched?
    requires was.timings.enrichedAt.Some? ==> was.timings.enrichedAt.value <= stamp <= now
    ensures StatusOK(HypothesizedStatus(was, stamp, record, hypotheses), now)
    ensures Advances(was, HypothesizedStatus(was, stamp, record, hypotheses))
  {
    hide WellGathered;
  }

  lemma WriteFindingsStep(s: State, w: nat, stamp: int)
    requires Inv(s) && Enabled(s, WriteFindings(w, stamp))
    ensures Inv(AfterWriteFindings(s, w, stamp))
  {
    hide Inv, Derived, Written, HypothesizedStatus, Stored;
    var d := WorkerAt(s, w);
    WorkerFacts(s, w);
    if Current(s, d.latest) {
      FindingsWritten(s, w, stamp);
    } else if d.latest.key in s.objects {
      WorkerStep(s, w, Finished(d.seen, d.record, d.hypotheses));
    } else {
      WorkerStep(s, w, Idle);
    }
  }

  lemma FindingsWritten(s: State, w: nat, stamp: int)
    requires Inv(s) && Enabled(s, WriteFindings(w, stamp)) && Current(s, WorkerAt(s, w).latest)
    requires WorkerOK(s.history, s.now, WorkerAt(s, w))
    ensures Inv(AfterWriteFindings(s, w, stamp))
  {
    hide Inv, Derived, StatusOK, Advances, Fresh;
    var d := WorkerAt(s, w);
    var status := HypothesizedStatus(d.latest.status, stamp, d.record, d.hypotheses);
    StoredStatusOK(s, d.latest);
    FindingsAdvance(d.latest.status, stamp, d.record, d.hypotheses, s.now);
    WrittenIsFresh(s, d.latest, status);
    CurrentIsRead(s, d.latest);
    FindingsStored(s, Written(s, d.latest, status), w, d.seen);
  }

  /** No earlier version of an object that may still gain findings has any. */
  lemma FirstFindings(s: State, o: Object, v: Object)
    requires Fresh(s, o) && o.status.phase.Hypothesized? && v in s.history && v.status.phase.Hypothesized?
    ensures v.uid != o.uid
  {
    hide StatusOK;
    assert v.uid == o.uid ==> Advances(v.status, o.status);
  }

  lemma FindingsStored(s: State, o: Object, w: nat, seen: Object)
    requires Inv(s) && Fresh(s, o) && o.uid < s.nextUid && o.status.phase.Hypothesized? && o.status.investigation.Some?
    requires seen in s.history && seen.status.phase.Enriched? && seen.key == o.key
    requires Derived(seen, o.status.investigation.value, o.status.hypotheses)
    ensures var t := Stored(s, o);
            Inv(WithWorker(t.(origins := t.origins[o.uid := seen]), w, Idle))
  {
    hide HistoryOK, ObjectsOK, WorkerOK, Derived, Fresh;
    var u := Stored(s, o);
    var t := WithWorker(u.(origins := u.origins[o.uid := seen]), w, Idle);
    StoredHistory(s, o, s.nextUid);
    StoredObjects(s, o);
    IdleIsOK(t.history, t.now);
    forall x | x in t.workers ensures WorkerOK(t.history, t.now, t.workers[x]) {
      if x != w {
        StoredWorkers(s, o, s.workers[x]);
      }
    }
    OriginsAfterFindings(s, o, seen, t);
  }

  lemma OriginsAfterFindings(s: State, o: Object, seen: Object, t: State)
    requires OriginsOK(s) && Fresh(s, o) && o.status.phase.Hypothesized? && o.status.investigation.Some?
    requires seen in s.history && seen.status.phase.Enriched? && seen.key == o.key
    requires Derived(seen, o.status.investigation.value, o.status.hypotheses)
    requires t.history == s.history + {o} && t.origins == s.origins[o.uid := seen]
    ensures OriginsOK(t)
  {
    hide Derived, Fresh;
    forall v | v in t.history && v.status.phase.Hypothesized? ensures OriginOK(t, v) {
      if v != o {
        assert OriginOK(s, v);
        FirstFindings(s, o, v);
      }
    }
  }

  lemma IdleIsOK(history: set<Object>, now: int)
    ensures WorkerOK(history, now, Idle)
  {
  }

  lemma ConclusionIsDerived(
      seen: Object, config: AgentConfig, pricing: Pricing, f: Findings, calls: seq<AuditRecord>)
    requires Investigated(seen.key.namespaceName, seen.spec, seen.status.evidence, config, pricing, f, calls)
    ensures Derived(seen, RecordOf(f, calls), f.hypotheses)
  {
    hide Investigated, RecordOf;
    assert DerivedBy(seen, RecordOf(f, calls), f.hypotheses, config, pricing, f, calls);
  }

  lemma ConcludeStep(s: State, w: nat, config: AgentConfig, pricing: Pricing, f: Findings, calls: seq<AuditRecord>)
    requires Inv(s) && Enabled(s, Conclude(w, config, pricing, f, calls))
    ensures Inv(Next(s, Conclude(w, config, pricing, f, calls)))
  {
    hide Inv, Investigated, Derived, RecordOf;
    WorkerFacts(s, w);
    var seen := WorkerAt(s, w).seen;
    ConclusionIsDerived(seen, config, pricing, f, calls);
    WorkerStep(s, w, Finished(seen, RecordOf(f, calls), f.hypotheses));
  }

  lemma RereadStep(s: State, w: nat, latest: Object)
    requires Inv(s) && Enabled(s, Reread(w, latest))
    ensures Inv(Next(s, Reread(w, latest)))
  {
    hide Inv, Derived, WellGathered;
    WorkerFacts(s, w);
    var d := WorkerAt(s, w);
    if latest.status.phase.Enriched? {
      StoredStatusOK(s, latest);
      WorkerStep(s, w, Recording(d.seen, d.record, d.hypotheses, latest, s.now));
    } else {
      WorkerStep(s, w, Idle);
    }
  }

  lemma ReadDetectedStep(s: State, w: nat, seen: Object)
    requires Inv(s) && Enabled(s, ReadDetected(w, seen))
    ensures Inv(Next(s, ReadDetected(w, seen)))
  {
    hide Inv, WellGathered;
    StoredStatusOK(s, seen);
    WorkerStep(s, w, Gathering(seen, s.now));
  }

  lemma StepKeepsInv(s: State, a: Step)
    requires Inv(s) && Enabled(s, a)
    ensures Inv(Next(s, a))
  {
    hide Inv;
    match a
    case Tick(to) => TickStep(s, to);
    case Create(w) => CreateStep(s, w);
    case MarkDetected(w, stamp) => MarkDetectedStep(s, w, stamp);
    case WriteEvidence(w, stamp, ev) => WriteEvidenceStep(s, w, stamp, ev);
    case WriteFindings(w, stamp) => WriteFindingsStep(s, w, stamp);
    case Delete(key) => DeleteStep(s, key);
    case Miss(w, key, spec) => WorkerStep(s, w, Opening(key, spec));
    case ReadDetected(w, seen) => ReadDetectedStep(s, w, seen);
    case ReadEnriched(w, seen) => WorkerStep(s, w, Investigating(seen));
    case Conclude(w, config, pricing, f, calls) => ConcludeStep(s, w, config, pricing, f, calls);
    case Reread(w, latest) => RereadStep(s, w, latest);
    case Abandon(w) => WorkerStep(s, w, Idle);
  }

  // ----- what each stage records -----

  /** Every field each write changes, and that it changes no other. */
  lemma StagesRecord(
      s: Status, stamp: int, ev: Evidence, record: InvestigationRecord, hypotheses: seq<Hypothesis>)
    ensures var d := DetectedStatus(s, stamp);
            && d.phase.Detected? && d.timings.detectedAt == Some(stamp)
            && d.timings.enrichedAt == s.timings.enrichedAt && d.timings.hypothesizedAt == s.timings.hypothesizedAt
            && d.evidence == s.evidence && d.investigation == s.investigation && d.hypotheses == s.hypotheses
    ensures var e := EnrichedStatus(s, stamp, ev);
            && e.phase.Enriched? && e.timings.enrichedAt == Some(stamp) && e.evidence == Some(ev)
            && e.timings.detectedAt == s.timings.detectedAt && e.timings.hypothesizedAt == s.timings.hypothesizedAt
            && e.investigation == s.investigation && e.hypotheses == s.hypotheses
    ensures var h := HypothesizedStatus(s, stamp, record, hypotheses);
            && h.phase.Hypothesized? && h.timings.hypothesizedAt == Some(stamp)
            && h.investigation == Some(record) && h.hypotheses == hypotheses
            && h.timings.detectedAt == s.timings.detectedAt && h.timings.enrichedAt == s.timings.enrichedAt
            && h.evidence == s.evidence
  {
  }
}
