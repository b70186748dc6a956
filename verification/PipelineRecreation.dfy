/** Why findings are promised to match their evidence only for one object: a diagnosis deleted and
    reopened under its name while it is investigated receives the findings of its predecessor. */
module PipelineRecreation {
  import opened Wrappers
  import opened Kinds
  import opened Conversation
  import opened Tools
  import opened Evidence
  import opened Investigation
  import opened Api
  import opened InvestigatorController
  import opened Pipeline
  import opened PipelineRuns
  import opened PipelineFindings
  import opened OneTurnRuns

  ghost predicate Reachable(hash: string -> string, s: State) {
    exists states, actions :: EndsIn(hash, states, actions, s)
  }

  ghost predicate EndsIn(hash: string -> string, states: seq<State>, actions: seq<Step>, s: State) {
    Run(hash, states, actions) && states[|actions|] == s
  }

  lemma InitialReachable(hash: string -> string)
    ensures Reachable(hash, INITIAL)
  {
    assert EndsIn(hash, [INITIAL], [], INITIAL);
  }

  lemma NextReachable(hash: string -> string, s: State, a: Step)
    requires Reachable(hash, s) && Takes(hash, s, a)
    ensures Reachable(hash, Next(s, a))
  {
    hide Next, Enabled, Opens;
    var states, actions :| EndsIn(hash, states, actions, s);
    var longer, steps := states + [Next(s, a)], actions + [a];
    forall i | 0 <= i < |steps| ensures StepOf(hash, longer[i], steps[i], longer[i + 1]) {
      if i < |actions| {
        assert StepOf(hash, states[i], actions[i], states[i + 1]);
      }
    }
    assert EndsIn(hash, longer, steps, Next(s, a));
  }

  // ----- a diagnosis opened and enriched at once -----

  function DetectedAtStart(): Status {
    DetectedStatus(EMPTY_STATUS, 0)
  }

  function EnrichedAtStart(ev: Evidence): Status {
    EnrichedStatus(DetectedAtStart(), 0, ev)
  }

  /** What opening a diagnosis leaves alone: the clock, earlier history and other workers. */
  ghost predicate Beside(s: State, t: State) {
    && s.now == t.now == 0 && s.history <= t.history && WorkerAt(t, 0).Idle?
    && forall w :: w != 0 ==> WorkerAt(t, w) == WorkerAt(s, w)
  }

  lemma Opened(hash: string -> string, s: State, key: Key, spec: Spec) returns (t: State, o: Object)
    requires Reachable(hash, s) && s.now == 0 && WorkerAt(s, 0).Idle? && key !in s.objects && Opens(hash, key, spec)
    ensures Reachable(hash, t) && s.now == t.now && s.history <= t.history
    ensures o == Object(key, s.nextVersion, s.nextUid, spec, EMPTY_STATUS) && key in t.objects && t.objects[key] == o
    ensures WorkerAt(t, 0) == Worker.Opened(o, 0) && forall w :: w != 0 ==> WorkerAt(t, w) == WorkerAt(s, w)
  {
    hide Reachable, Opens;
    NextReachable(hash, s, Miss(0, key, spec));
    var looked := Next(s, Miss(0, key, spec));
    NextReachable(hash, looked, Create(0));
    t := Next(looked, Create(0));
    o := Object(key, s.nextVersion, s.nextUid, spec, EMPTY_STATUS);
  }

  lemma Detected(hash: string -> string, s: State, o: Object) returns (t: State, d: Object)
    requires Reachable(hash, s) && s.now == 0 && WorkerAt(s, 0) == Worker.Opened(o, 0)
    requires o.status == EMPTY_STATUS && o.key in s.objects && s.objects[o.key] == o
    ensures Reachable(hash, t) && s.now == t.now && s.history <= t.history
    ensures d == o.(version := s.nextVersion, status := DetectedAtStart())
    ensures d in t.history && o.key in t.objects && t.objects[o.key] == d
    ensures WorkerAt(t, 0).Idle? && forall w :: w != 0 ==> WorkerAt(t, w) == WorkerAt(s, w)
  {
    hide Reachable;
    NextReachable(hash, s, MarkDetected(0, 0));
    t := Next(s, MarkDetected(0, 0));
    d := o.(version := s.nextVersion, status := DetectedAtStart());
  }

  lemma Enriched(hash: string -> string, s: State, d: Object, ev: Evidence) returns (t: State, e: Object)
    requires Reachable(hash, s) && s.now == 0 && WorkerAt(s, 0).Idle? && EvidenceFor(d.spec.failureType, ev)
    requires d.status == DetectedAtStart() && d in s.history && d.key in s.objects && s.objects[d.key] == d
    ensures Reachable(hash, t) && s.now == t.now && s.history <= t.history
    ensures e == d.(version := s.nextVersion, status := EnrichedAtStart(ev))
    ensures e in t.history && d.key in t.objects && t.objects[d.key] == e
    ensures WorkerAt(t, 0).Idle? && forall w :: w != 0 ==> WorkerAt(t, w) == WorkerAt(s, w)
  {
    hide Reachable, EvidenceFor;
    NextReachable(hash, s, ReadDetected(0, d));
    var read := Next(s, ReadDetected(0, d));
    NextReachable(hash, read, WriteEvidence(0, 0, ev));
    t := Next(read, WriteEvidence(0, 0, ev));
    e := d.(version := s.nextVersion, status := EnrichedAtStart(ev));
  }

  lemma OpenedAndEnriched(hash: string -> string, s: State, key: Key, spec: Spec, ev: Evidence)
    returns (t: State, e: Object)
    requires Reachable(hash, s) && s.now == 0 && WorkerAt(s, 0).Idle? && key !in s.objects
    requires Opens(hash, key, spec) && EvidenceFor(spec.failureType, ev)
    ensures Reachable(hash, t) && Beside(s, t)
    ensures e in t.history && key in t.objects && t.objects[key] == e
    ensures e.key == key && e.spec == spec && e.uid == s.nextUid && e.status == EnrichedAtStart(ev)
  {
    hide Reachable, Opens, EvidenceFor, EnrichedAtStart, DetectedAtStart;
    var o, d;
    t, o := Opened(hash, s, key, spec);
    t, d := Detected(hash, t, o);
    t, e := Enriched(hash, t, d, ev);
  }

  // ----- an investigation that reads nothing and cites an event -----

  function EventsId(): string {
    "B:" + KindName(Events)
  }

  /** Collection when every read succeeds. */
  function Everything(): Source {
    Source(_ => Gathered.Content("x"), s => (s, 0))
  }

  lemma EventsAreCollected(f: FailureType, ev: Evidence)
    requires CollectedFor(f, Everything(), ev)
    ensures EvidenceFor(f, ev) && WellGathered(ev) && |ev.items| > 2
    ensures ev.items[2].kind == Events && ev.items[2].status.Collected?
  {
    hide RequiredUncollected, ItemFor;
    ItemMeans(f, Everything(), Events);
    LetterIsNotBlank();
    assert RequirementFor(f, Events) != NotNeeded;
    assert ALL_KINDS[2] == Events;
  }

  lemma EventsResolve(input: Input, ev: Evidence)
    requires input.baseline == BaselineOf(ev.items, |ev.items|)
    requires 2 < |ev.items| && ev.items[2].kind == Events && ev.items[2].status.Collected?
    ensures ResolvesAfter(input, 0, EventsId())
  {
    hide BaselineOf, KindName, Excerpt;
    BaselineItems(ev.items, |ev.items|, BaselineEntry(ev.items[2]));
  }

  /** Nothing was collected for a pod that was gone, so no investigation without calls could cite it. */
  lemma FindingsAreForeign(o: Object, f: Findings)
    requires o.status.evidence == Some(WITHOUT_POD) && o.status.investigation == Some(RecordOf(f, []))
    requires o.status.hypotheses == f.hypotheses != [] && forall h <- f.hypotheses :: EventsId() in h.citations
    ensures !OwnFindings(o)
  {
    hide Investigated, StoredResolves;
    if OwnFindings(o) {
      var config, pricing, g, calls :|
        DerivedBy(o, o.status.investigation.value, o.status.hypotheses, config, pricing, g, calls);
      WithoutPodIsWellGathered();
      InvestigatedMeans(o.key.namespaceName, o.spec, WITHOUT_POD, config, pricing, g, calls);
      assert o.status.hypotheses[0] in g.hypotheses;
      assert Recorded(calls) == [];
      NothingResolves();
      assert false;
    }
  }

  lemma NothingResolves()
    ensures !StoredResolves(WITHOUT_POD, [], EventsId())
  {
  }

  // ----- the run -----

  lemma Concludes(
      hash: string -> string, s: State, e: Object, config: AgentConfig, pricing: Pricing, f: Findings)
    returns (t: State)
    requires Reachable(hash, s) && s.now == 0 && WorkerAt(s, 1).Idle? && WorkerAt(s, 0).Idle?
    requires e in s.history && e.key in s.objects && e.status.phase.Enriched?
    requires Investigated(e.key.namespaceName, e.spec, e.status.evidence, config, pricing, f, [])
    ensures Reachable(hash, t) && t.now == 0 && WorkerAt(t, 0).Idle? && e.key !in t.objects
    ensures WorkerAt(t, 1) == Finished(e, RecordOf(f, []), f.hypotheses)
  {
    hide Reachable, Investigated, RecordOf;
    NextReachable(hash, s, ReadEnriched(1, e));
    var read := Next(s, ReadEnriched(1, e));
    var concluded := Conclude(1, config, pricing, f, []);
    NextReachable(hash, read, concluded);
    var done := Next(read, concluded);
    NextReachable(hash, done, Delete(e.key));
    t := Next(done, Delete(e.key));
  }

  lemma Records(hash: string -> string, s: State, d: Worker, e: Object, ev: Evidence) returns (t: State, o: Object)
    requires Reachable(hash, s) && s.now == 0 && d.Finished? && WorkerAt(s, 1) == d && d.seen.key == e.key
    requires e in s.history && e.key in s.objects && s.objects[e.key] == e && e.status == EnrichedAtStart(ev)
    ensures Reachable(hash, t) && o in t.history && o.key == e.key && o.key in t.objects && t.objects[o.key] == o
    ensures o.status == HypothesizedStatus(e.status, 0, d.record, d.hypotheses)
  {
    hide Reachable;
    NextReachable(hash, s, Reread(1, e));
    var read := Next(s, Reread(1, e));
    NextReachable(hash, read, WriteFindings(1, 0));
    t := Next(read, WriteFindings(1, 0));
    o := e.(version := s.nextVersion, status := HypothesizedStatus(e.status, 0, d.record, d.hypotheses));
  }

  /** Findings of evidence that has events, recorded onto a diagnosis reopened after the pod was gone. */
  lemma ForeignFindingsStored(
      hash: string -> string, key: Key, spec: Spec, ev: Evidence, config: AgentConfig, pricing: Pricing, f: Findings)
    returns (t: State)
    requires Opens(hash, key, spec) && EvidenceFor(spec.failureType, ev)
    requires Investigated(key.namespaceName, spec, Some(ev), config, pricing, f, [])
    requires f.hypotheses != [] && forall h <- f.hypotheses :: EventsId() in h.citations
    ensures Reachable(hash, t) && key in t.objects && t.objects[key].status.phase.Hypothesized?
    ensures t.objects[key].status.hypotheses == f.hypotheses && !OwnFindings(t.objects[key])
  {
    InitialReachable(hash);
    hide Reachable, Opens, EvidenceFor, RecordOf, Derived, WorkerOK, Investigated, EventsId;
    var s, e := OpenedAndEnriched(hash, INITIAL, key, spec, ev);
    s := Concludes(hash, s, e, config, pricing, f);
    var found := WorkerAt(s, 1);
    PodGone(spec.failureType);
    var again, e2 := OpenedAndEnriched(hash, s, key, spec, WITHOUT_POD);
    var o;
    t, o := Records(hash, again, found, e2, WITHOUT_POD);
    FindingsAreForeign(o, f);
  }

  lemma PodGone(f: FailureType)
    ensures EvidenceFor(f, WITHOUT_POD)
  {
  }

  /** Whatever the failure, the policy's limits and the price: the collector gathers evidence, the
      controller investigates it with a model that reads nothing and cites an event, and there is a run
      in which what it returned is stored on a live diagnosis, reopened meanwhile after the pod was gone,
      whose evidence no investigation with these findings can have had. */
  method RecreatedNameGetsForeignFindings(
      ghost hash: string -> string, key: Key, spec: Spec, config: AgentConfig, pricing: Pricing)
    returns (f: Findings, err: Option<string>, calls: seq<AuditRecord>, ghost s: State)
    requires Opens(hash, key, spec) && config.maxToolCalls >= 1
    ensures err.None? && calls == []
    ensures Reachable(hash, s) && key in s.objects && s.objects[key].status.phase.Hypothesized?
    ensures s.objects[key].status.hypotheses == f.hypotheses && !OwnFindings(s.objects[key])
  {
    hide Reachable, Opens, EvidenceFor, CollectedFor, WellGathered, Ran, Investigated, InputFor, ResolvesAfter, Derived,
         ModelFailure, Eager, EventsId, AuditOf, OwnFindings;
    var ev := Collect(spec.failureType, Everything(), NO_FACTS);
    EventsAreCollected(spec.failureType, ev);
    var world := Eager(0, EventsId());
    var model := new ScriptedModel(world.script);
    f, err, calls :=
      Investigate(key.namespaceName, spec, Some(ev), config, pricing, model, world.registry, world.expired);
    ghost var input := InputFor(key.namespaceName, spec, Some(ev), config, pricing);
    InputOfEvidence(key.namespaceName, spec, ev, config, pricing);
    InputBudget(key.namespaceName, spec, Some(ev), config, pricing);
    EventsResolve(input, ev);
    EagerInvestigation(model, input, ev, 0, EventsId(), f, err, calls);
    s := ForeignFindingsStored(hash, key, spec, ev, config, pricing, f);
  }
}
